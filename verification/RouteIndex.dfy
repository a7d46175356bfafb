/** The compiled index and `DecideRoute`, proved to decide as the linear scan does. */
module RouteIndexing {
  import opened Foundations
  import opened ConfigModel
  import opened RewriteTemplate
  import opened PrefixTrie
  import opened Routing

  // ---- Candidates, by what the index finds ----

  datatype Candidate = Candidate(route: RouteId, suffix: Bytes, submatch: Option<seq<int>>)

  function Admits(lib: Lib, routes: seq<Route>, r: Request): RouteId -> bool {
    (i: RouteId) => i < |routes| && MatchConditions(lib, routes[i].rule, r)
  }

  function AdmitsRegex(lib: Lib, routes: seq<Route>, r: Request, path: Bytes): RouteId -> bool {
    (i: RouteId) => && i < |routes| && MatchConditions(lib, routes[i].rule, r)
         && routes[i].rule.compiled.Some? && lib.find(routes[i].rule.compiled.value, path).Some?
  }

  // The prefix lookup, for any test of the routes.

  /** The callback that `MatchPrefix` passes to the trie. */
  function PrefixYield(ok: RouteId -> bool, path: Bytes): Yield<Candidate> {
    (o: Offer) =>
      var first := FirstOk<RouteId>(o.routes, ok);
      if first.Some? && o.depth <= |path| then Some(Candidate(first.value, path[o.depth..], None)) else None
  }

  /** The longest prefix of `path`, of length `depth` or more, with a route that passes. */
  function LongestPassing(routes: seq<Route>, ok: RouteId -> bool, path: Bytes, depth: nat): Option<Candidate>
    requires depth <= |path|
    decreases |path| - depth
  {
    var deeper := if depth < |path| then LongestPassing(routes, ok, path, depth + 1) else None;
    if deeper.Some? then deeper
    else
      var first := FirstOk<RouteId>(Members(routes, |routes|, PrefixPart(path[..depth])), ok);
      if first.Some? then Some(Candidate(first.value, path[depth..], None)) else None
  }

  function LongestPrefix(lib: Lib, routes: seq<Route>, r: Request, path: Bytes, depth: nat): Option<Candidate>
    requires depth <= |path|
  {
    LongestPassing(routes, Admits(lib, routes, r), path, depth)
  }

  /** The node for `s` holds the prefix routes of `s`. */
  ghost predicate HoldsMembers(c: Contents, routes: seq<Route>, s: Bytes) {
    Stored(c, s) == Members(routes, |routes|, PrefixPart(s))
  }

  lemma {:induction false} TraversalFindsLongestPrefix(
    routes: seq<Route>, ok: RouteId -> bool, path: Bytes, depth: nat, c: Contents)
    requires depth <= |path|
    requires forall s {:trigger HoldsMembers(c, routes, s)} :: HoldsMembers(c, routes, s)
    ensures FirstAccepted(Offers(c, path, depth), PrefixYield(ok, path)) == LongestPassing(routes, ok, path, depth)
    decreases |path| - depth
  {
    assert HoldsMembers(c, routes, path[..depth]);
    var callback, here := PrefixYield(ok, path), Stored(c, path[..depth]);
    AppendOffers(c, path, depth, callback);
    var first := FirstOk<RouteId>(here, ok);
    assert callback(Offer(here, depth))
        == if first.Some? then Some(Candidate(first.value, path[depth..], None)) else None;
    if depth < |path| {
      TraversalFindsLongestPrefix(routes, ok, path, depth + 1, c);
    }
  }

  /** `first` is the least of the first `n` routes of this part that `ok` accepts. */
  ghost predicate IsFirstMember(routes: seq<Route>, n: nat, part: Part, ok: RouteId -> bool, first: Option<RouteId>)
    requires n <= |routes|
  {
    && (first.Some? ==> first.value < n && PartOf(routes[first.value].rule) == part && ok(first.value))
    && (forall j: nat | j < n && PartOf(routes[j].rule) == part && ok(j) :: first.Some? && first.value <= j)
  }

  lemma {:induction false} FirstMember(routes: seq<Route>, n: nat, part: Part, ok: RouteId -> bool)
    requires n <= |routes|
    ensures IsFirstMember(routes, n, part, ok, FirstOk<RouteId>(Members(routes, n, part), ok))
  {
    if n > 0 {
      var last, before := n - 1, Members(routes, n - 1, part);
      FirstMember(routes, last, part, ok);
      if PartOf(routes[last].rule) == part {
        FirstOkAppend<RouteId>(before, last, ok);
        assert Members(routes, n, part) == before + [last];
      } else {
        assert Members(routes, n, part) == before;
      }
    }
  }

  ghost predicate IsCandidateFor(lib: Lib, routes: seq<Route>, path: Bytes, c: Candidate)
    requires c.route < |routes|
  {
    IsCandidateOf(lib, routes[c.route].rule, path, c)
  }

  /** What a candidate for a rule carries along. */
  ghost predicate IsCandidateOf(lib: Lib, rule: Rule, path: Bytes, c: Candidate) {
    match PartOf(rule)
    case ExactPart(_) => c.suffix == [] && c.submatch.None?
    case PrefixPart(p) => p <= path && c.suffix == path[|p|..] && c.submatch.None?
    case RegexPart => rule.compiled.Some? && c.submatch.Some? && c.submatch == lib.find(rule.compiled.value, path)
    case NoPart => false
  }

  ghost predicate IsPrefixRoute(routes: seq<Route>, ok: RouteId -> bool, path: Bytes, depth: nat, j: nat) {
    && j < |routes| && PartOf(routes[j].rule).PrefixPart? && ok(j)
    && routes[j].rule.pathPrefix <= path && |routes[j].rule.pathPrefix| >= depth
  }

  lemma {:induction false} LongestPassingIsBest(routes: seq<Route>, ok: RouteId -> bool, path: Bytes, depth: nat)
    requires depth <= |path|
    decreases |path| - depth
    ensures var c := LongestPassing(routes, ok, path, depth);
            && (c.Some? ==> IsPrefixRoute(routes, ok, path, depth, c.value.route)
                            && c.value.suffix == path[|routes[c.value.route].rule.pathPrefix|..]
                            && c.value.submatch.None?)
            && (forall j: nat | IsPrefixRoute(routes, ok, path, depth, j) ::
                  c.Some? && BeatsPrefix(routes, c.value.route, j))
  {
    var c := LongestPassing(routes, ok, path, depth);
    if depth < |path| { LongestPassingIsBest(routes, ok, path, depth + 1); }
    if depth == |path| || LongestPassing(routes, ok, path, depth + 1).None? {
      FirstMember(routes, |routes|, PrefixPart(path[..depth]), ok);
      forall j: nat | IsPrefixRoute(routes, ok, path, depth, j)
        ensures c.Some? && BeatsPrefix(routes, c.value.route, j)
      {
        assert !IsPrefixRoute(routes, ok, path, depth + 1, j);
        assert routes[j].rule.pathPrefix == path[..depth];
      }
    } else {
      forall j: nat | IsPrefixRoute(routes, ok, path, depth, j) ensures BeatsPrefix(routes, c.value.route, j) {
        assert IsPrefixRoute(routes, ok, path, depth + 1, j) || |routes[j].rule.pathPrefix| == depth;
      }
    }
  }

  ghost predicate IsPrefixRouteFor(lib: Lib, routes: seq<Route>, r: Request, path: Bytes, depth: nat, j: nat) {
    && j < |routes| && PartOf(routes[j].rule).PrefixPart? && Applies(lib, routes[j].rule, r, path)
    && |routes[j].rule.pathPrefix| >= depth
  }

  lemma LongestPrefixIsBest(lib: Lib, routes: seq<Route>, r: Request, path: Bytes, depth: nat)
    requires depth <= |path|
    ensures var c := LongestPrefix(lib, routes, r, path, depth);
            && (c.Some? ==> IsPrefixRouteFor(lib, routes, r, path, depth, c.value.route)
                            && IsCandidateFor(lib, routes, path, c.value))
            && (forall j: nat | IsPrefixRouteFor(lib, routes, r, path, depth, j) ::
                  c.Some? && BeatsPrefix(routes, c.value.route, j))
  {
    var ok := Admits(lib, routes, r);
    LongestPassingIsBest(routes, ok, path, depth);
    forall j: nat
      ensures IsPrefixRouteFor(lib, routes, r, path, depth, j) <==> IsPrefixRoute(routes, ok, path, depth, j)
    {
    }
  }

  /** What the index yields: exact map, then trie, then regex list. */
  function IndexCandidate(lib: Lib, routes: seq<Route>, r: Request, path: Bytes): Option<Candidate> {
    var exact := ExactCandidate(lib, routes, r, path);
    if exact.Some? then exact
    else
      var prefix := LongestPrefix(lib, routes, r, path, 0);
      if prefix.Some? then prefix
      else RegexCandidate(lib, routes, r, path)
  }

  function ExactCandidate(lib: Lib, routes: seq<Route>, r: Request, path: Bytes): Option<Candidate> {
    var first := FirstOk<RouteId>(Members(routes, |routes|, ExactPart(path)), Admits(lib, routes, r));
    if first.Some? then Some(Candidate(first.value, [], None)) else None
  }

  function RegexCandidate(lib: Lib, routes: seq<Route>, r: Request, path: Bytes): Option<Candidate> {
    var regex := FirstOk<RouteId>(Members(routes, |routes|, RegexPart), AdmitsRegex(lib, routes, r, path));
    if regex.None? || !AdmitsRegex(lib, routes, r, path)(regex.value) then None
    else Some(Candidate(regex.value, [], lib.find(routes[regex.value].rule.compiled.value, path)))
  }

  // One part of the index against the accumulator of the scan for the same part.

  lemma ExactAgrees(lib: Lib, routes: seq<Route>, r: Request, path: Bytes)
    ensures FirstOk<RouteId>(Members(routes, |routes|, ExactPart(path)), Admits(lib, routes, r))
         == Scan(lib, routes, r, path, |routes|).exact
  {
    ScanKeepsExact(lib, routes, r, path, |routes|);
    FirstMember(routes, |routes|, ExactPart(path), Admits(lib, routes, r));
  }

  lemma PrefixAgrees(lib: Lib, routes: seq<Route>, r: Request, path: Bytes)
    ensures var c := LongestPrefix(lib, routes, r, path, 0);
            && (if c.Some? then Some(c.value.route) else None) == Scan(lib, routes, r, path, |routes|).prefix
            && (c.Some? ==> c.value.route < |routes| && PartOf(routes[c.value.route].rule).PrefixPart?
                            && IsCandidateFor(lib, routes, path, c.value))
  {
    ScanKeepsPrefix(lib, routes, r, path, |routes|);
    LongestPrefixIsBest(lib, routes, r, path, 0);
    var c, p := LongestPrefix(lib, routes, r, path, 0), Scan(lib, routes, r, path, |routes|).prefix;
    assert p.Some? ==> IsPrefixRouteFor(lib, routes, r, path, 0, p.value);
  }

  lemma RegexAgrees(lib: Lib, routes: seq<Route>, r: Request, path: Bytes)
    ensures var c := RegexCandidate(lib, routes, r, path);
            && (if c.Some? then Some(c.value.route) else None) == Scan(lib, routes, r, path, |routes|).regex
            && (c.Some? ==> c.value.route < |routes| && PartOf(routes[c.value.route].rule).RegexPart?
                            && IsCandidateFor(lib, routes, path, c.value))
  {
    ScanKeepsRegex(lib, routes, r, path, |routes|);
    FirstMember(routes, |routes|, RegexPart, AdmitsRegex(lib, routes, r, path));
  }

  /** The index picks the very route the linear scan picks, ties and fall-through included, and
      none exactly when the scan finds none. */
  lemma IndexAgreesWithScan(lib: Lib, cfg: ConfigView, r: Request, path: Bytes)
    ensures var c := IndexCandidate(lib, cfg.routes, r, path);
            && (if c.Some? then Some(c.value.route) else None) == ReferenceDecide(lib, cfg, r, path)
            && (c.Some? ==> c.value.route < |cfg.routes| && IsCandidateFor(lib, cfg.routes, path, c.value))
  {
    ExactAgrees(lib, cfg.routes, r, path);
    PrefixAgrees(lib, cfg.routes, r, path);
    RegexAgrees(lib, cfg.routes, r, path);
    FirstMember(cfg.routes, |cfg.routes|, ExactPart(path), Admits(lib, cfg.routes, r));
  }

  // ---- What a decision is ----

  datatype Target = Target(scheme: string, host: string, path: Bytes, rawQuery: string)
  datatype MirrorTarget = MirrorTarget(url: Url, ratio: real)
  datatype FailoverTarget = FailoverTarget(name: string, url: Url, timeoutMs: int)
  datatype Decision = Decision(
    upstream: string, timeoutMs: int, target: Target, mirrors: seq<MirrorTarget>, fallback: Option<FailoverTarget>)
  datatype RouteError = EmptyUrl | RouteNotFound | HostNotMapped(name: string) | MirrorNotMapped(name: string)

  /** The outbound path of a route that applies: a prefix route without a rewrite sends the request
      path unchanged, one with a rewrite sends the rewrite and the exact remainder. */
  function OutboundPath(lib: Lib, rule: Rule, r: Request, path: Bytes): Bytes
    requires Applies(lib, rule, r, path)
  {
    match PartOf(rule)
    case ExactPart(_) => if rule.rewrite == [] then path else rule.rewrite
    case PrefixPart(p) => if rule.rewrite == [] then path else rule.rewrite + path[|p|..]
    case RegexPart => Expansion(rule.rewrite, path, lib.find(rule.compiled.value, path).value)
  }

  function TimeoutOf(us: seq<Upstream>, name: string): int {
    var i := LastNamed(us, name);
    if i.Some? then us[i.value].timeout else 0
  }

  /** One hop, to a known upstream with a host, when the upstream names one. */
  function FallbackOf(cfg: ConfigView, name: string): Option<FailoverTarget> {
    var i := LastNamed(cfg.upstreams, name);
    var fallback := if i.Some? then cfg.upstreams[i.value].fallback else "";
    if fallback != "" && LastNamed(cfg.upstreams, fallback).Some? && fallback in cfg.nameToHost
    then Some(FailoverTarget(fallback, cfg.nameToHost[fallback], TimeoutOf(cfg.upstreams, fallback)))
    else None
  }

  lemma TimeoutOfLast(us: seq<Upstream>, i: nat)
    requires IsLast(us, i)
    ensures TimeoutOf(us, us[i].name) == us[i].timeout
  {
    assert us[i].name in Names(us) by { assert us[i] in us; }
    assert LastNamed(us, us[i].name) == Some(i);
  }

  /** The fallback has the host and the timeout of the upstream it names, not those of the upstream
      that names it. */
  lemma FallbackIsItsOwn(cfg: ConfigView, i: nat, j: nat)
    requires IsLast(cfg.upstreams, i) && IsLast(cfg.upstreams, j)
    requires cfg.upstreams[i].fallback == cfg.upstreams[j].name
    ensures FallbackOf(cfg, cfg.upstreams[i].name)
         == if cfg.upstreams[j].name == "" || cfg.upstreams[j].name !in cfg.nameToHost then None
            else Some(FailoverTarget(cfg.upstreams[j].name, cfg.nameToHost[cfg.upstreams[j].name],
                                     cfg.upstreams[j].timeout))
  {
    TimeoutOfLast(cfg.upstreams, j);
    assert cfg.upstreams[i] in cfg.upstreams && cfg.upstreams[j] in cfg.upstreams;
    assert LastNamed(cfg.upstreams, cfg.upstreams[i].name) == Some(i);
  }

  lemma NoFallback(cfg: ConfigView, i: nat)
    requires IsLast(cfg.upstreams, i) && cfg.upstreams[i].fallback == ""
    ensures FallbackOf(cfg, cfg.upstreams[i].name).None?
  {
    assert cfg.upstreams[i] in cfg.upstreams;
    assert LastNamed(cfg.upstreams, cfg.upstreams[i].name) == Some(i);
  }

  function Unmapped(cfg: ConfigView): Mirror -> bool {
    (m: Mirror) => m.upstream !in cfg.nameToHost
  }

  ghost predicate ResolvesTo(cfg: ConfigView, ms: seq<Mirror>, out: seq<MirrorTarget>) {
    && |out| == |ms|
    && forall k | 0 <= k < |ms| ::
         ms[k].upstream in cfg.nameToHost && out[k] == MirrorTarget(cfg.nameToHost[ms[k].upstream], ms[k].ratio)
  }

  /** The result for winner `i`: the first name without a host is the error. */
  ghost predicate IsResolved(
    lib: Lib, cfg: ConfigView, r: Request, path: Bytes, i: nat, d: Result<Decision, RouteError>)
    requires i < |cfg.routes| && Applies(lib, cfg.routes[i].rule, r, path)
  {
    var route := cfg.routes[i];
    if route.upstream !in cfg.nameToHost then d == Err(HostNotMapped(route.upstream))
    else
      match FirstOk(route.mirrors, Unmapped(cfg))
      case Some(m) => d == Err(MirrorNotMapped(m.upstream))
      case None =>
        var host := cfg.nameToHost[route.upstream];
        && d.Ok?
        && d.value.upstream == route.upstream
        && d.value.timeoutMs == TimeoutOf(cfg.upstreams, route.upstream)
        && d.value.target == Target(host.scheme, host.host, OutboundPath(lib, route.rule, r, path), r.rawQuery)
        && ResolvesTo(cfg, route.mirrors, d.value.mirrors)
        && d.value.fallback == FallbackOf(cfg, route.upstream)
  }

  /** Every winner resolves to a decision or an error. */
  lemma WinnerResolves(lib: Lib, cfg: ConfigView, r: Request, path: Bytes, i: nat)
    returns (d: Result<Decision, RouteError>)
    requires i < |cfg.routes| && Applies(lib, cfg.routes[i].rule, r, path)
    ensures IsResolved(lib, cfg, r, path, i, d)
  {
    var route := cfg.routes[i];
    var ms, missing := route.mirrors, FirstOk(route.mirrors, Unmapped(cfg));
    FirstOkWitness(ms, Unmapped(cfg));
    if route.upstream !in cfg.nameToHost {
      d := Err(HostNotMapped(route.upstream));
    } else if missing.Some? {
      d := Err(MirrorNotMapped(missing.value.upstream));
    } else {
      var host := cfg.nameToHost[route.upstream];
      assert forall k | 0 <= k < |ms| :: ms[k] in ms;
      var mirrors := seq(|ms|, k requires 0 <= k < |ms| => MirrorTarget(cfg.nameToHost[ms[k].upstream], ms[k].ratio));
      d := Ok(Decision(
        route.upstream, TimeoutOf(cfg.upstreams, route.upstream),
        Target(host.scheme, host.host, OutboundPath(lib, route.rule, r, path), r.rawQuery), mirrors,
        FallbackOf(cfg, route.upstream)));
    }
  }

  /** The decision the documentation promises for one config and one request. */
  ghost predicate IsDecision(lib: Lib, cfg: ConfigView, r: Request, d: Result<Decision, RouteError>) {
    if r.url.None? || r.url.value == [] then d == Err(EmptyUrl)
    else
      var w := ReferenceDecide(lib, cfg, r, r.url.value);
      if w.None? then d == Err(RouteNotFound)
      else Applies(lib, cfg.routes[w.value].rule, r, r.url.value) && IsResolved(lib, cfg, r, r.url.value, w.value, d)
  }

  /** Config and request fix the decision. */
  lemma DecisionIsUnique(
    lib: Lib, cfg: ConfigView, r: Request, d: Result<Decision, RouteError>, e: Result<Decision, RouteError>)
    requires IsDecision(lib, cfg, r, d) && IsDecision(lib, cfg, r, e)
    ensures d == e
  {
    if d.Ok? {
      assert d.value.mirrors == e.value.mirrors;
    }
  }

  /** What the index finds settles the decision. */
  lemma CandidateDecides(lib: Lib, cfg: ConfigView, r: Request)
    requires r.url.Some? && r.url.value != []
    ensures var path := r.url.value;
            var c := IndexCandidate(lib, cfg.routes, r, path);
            if c.None? then IsDecision(lib, cfg, r, Err(RouteNotFound))
            else
              && c.value.route < |cfg.routes| && Applies(lib, cfg.routes[c.value.route].rule, r, path)
              && IsCandidateFor(lib, cfg.routes, path, c.value)
              && forall d | IsResolved(lib, cfg, r, path, c.value.route, d) :: IsDecision(lib, cfg, r, d)
  {
    IndexAgreesWithScan(lib, cfg, r, r.url.value);
    ReferenceIsDocumented(lib, cfg, r, r.url.value);
  }

  // ---- The compiled index ----

  function EffectiveRewrite(rule: Rule): Bytes {
    if rule.rewrite != [] then rule.rewrite else if rule.path != [] then rule.path else rule.pathPrefix
  }

  function BuildTarget(host: Url, rewrite: Bytes, suffix: Bytes, rawQuery: string): Target {
    Target(host.scheme, host.host, rewrite + suffix, rawQuery)
  }

  function Lookup(exact: map<Bytes, seq<RouteId>>, p: Bytes): seq<RouteId> {
    if p in exact then exact[p] else []
  }

  ghost predicate IsLastIndex(us: seq<Upstream>, index: map<string, nat>) {
    forall n :: (n in index <==> LastNamed(us, n).Some?) && (n in index ==> Some(index[n]) == LastNamed(us, n))
  }

  class RouteIndex {
    const cfg: ConfigView
    var upstreams: map<string, nat>
    var exact: map<Bytes, seq<RouteId>>
    const prefix: Trie
    var regex: seq<RouteId>

    ghost predicate ExactFiled(n: nat, p: Bytes)
      requires n <= |cfg.routes|
      reads `exact
    {
      Lookup(exact, p) == Members(cfg.routes, n, ExactPart(p))
    }

    ghost predicate PrefixFiled(n: nat, s: Bytes)
      requires n <= |cfg.routes|
      reads prefix
    {
      Stored(prefix.contents, s) == Members(cfg.routes, n, PrefixPart(s))
    }

    /** The first `n` routes are filed, each in its own part and in config order. */
    ghost predicate Filed(n: nat)
      requires n <= |cfg.routes|
      reads this, prefix, prefix.Repr
    {
      && prefix.Valid() && this !in prefix.Repr
      && (forall p {:trigger ExactFiled(n, p)} :: ExactFiled(n, p))
      && (forall s {:trigger PrefixFiled(n, s)} :: PrefixFiled(n, s))
      && regex == Members(cfg.routes, n, RegexPart)
    }

    ghost predicate Valid()
      reads this, prefix, prefix.Repr
    {
      Filed(|cfg.routes|) && IsLastIndex(cfg.upstreams, upstreams)
    }

    constructor (cfg: ConfigView, upstreams: map<string, nat>)
      ensures Filed(0) && this.cfg == cfg && this.upstreams == upstreams && fresh(prefix) && fresh(prefix.Repr)
    {
      this.cfg := cfg;
      this.upstreams, exact, regex := upstreams, map[], [];
      prefix := new Trie();
      new;
      forall p ensures ExactFiled(0, p) {}
      forall s ensures PrefixFiled(0, s) {}
    }

    /** One turn of the loop over the routes: the switch on the kind of rule. */
    method File(i: nat)
      requires i < |cfg.routes| && Filed(i)
      modifies `exact, `regex, prefix.Repr
      ensures Filed(i + 1) && fresh(prefix.Repr - old(prefix.Repr))
    {
      var rule := cfg.routes[i].rule;
      if rule.path != [] {
        FileExact(i);
      } else if rule.pathPrefix != [] {
        FilePrefix(i);
      } else {
        if rule.regex != "" { regex := regex + [i]; }
        var n := i + 1;
        forall p ensures ExactFiled(n, p) { assert old(ExactFiled(i, p)); }
        forall s ensures PrefixFiled(n, s) { assert old(PrefixFiled(i, s)); }
      }
    }

    method FileExact(i: nat)
      requires i < |cfg.routes| && Filed(i) && PartOf(cfg.routes[i].rule).ExactPart?
      modifies `exact
      ensures Filed(i + 1)
    {
      var path := cfg.routes[i].rule.path;
      exact := exact[path := Lookup(exact, path) + [i]];
      var n := i + 1;
      forall p ensures ExactFiled(n, p) { assert old(ExactFiled(i, p)); }
      forall s ensures PrefixFiled(n, s) { assert old(PrefixFiled(i, s)); }
    }

    method FilePrefix(i: nat)
      requires i < |cfg.routes| && Filed(i) && PartOf(cfg.routes[i].rule).PrefixPart?
      modifies prefix.Repr
      ensures Filed(i + 1) && fresh(prefix.Repr - old(prefix.Repr))
    {
      prefix.Insert(cfg.routes[i].rule.pathPrefix, i);
      var n := i + 1;
      forall p ensures ExactFiled(n, p) { assert old(ExactFiled(i, p)); }
      forall s ensures PrefixFiled(n, s) { assert old(PrefixFiled(i, s)); }
    }

    // ---- Lookups: they only read ----

    method MatchExact(lib: Lib, r: Request, path: Bytes) returns (c: Option<Candidate>)
      requires Valid()
      ensures c == ExactCandidate(lib, cfg.routes, r, path)
    {
      assert ExactFiled(|cfg.routes|, path);
      var ids := Lookup(exact, path);
      var i := FindFirst(ids, Admits(lib, cfg.routes, r));
      if i < |ids| { return Some(Candidate(ids[i], [], None)); }
      return None;
    }

    method MatchPrefix(lib: Lib, r: Request, path: Bytes) returns (c: Option<Candidate>)
      requires Valid()
      ensures c == LongestPrefix(lib, cfg.routes, r, path, 0)
    {
      forall s ensures HoldsMembers(prefix.contents, cfg.routes, s) { assert PrefixFiled(|cfg.routes|, s); }
      TraversalFindsLongestPrefix(cfg.routes, Admits(lib, cfg.routes, r), path, 0, prefix.contents);
      ghost var calls;
      c, calls := prefix.Match(path, PrefixYield(Admits(lib, cfg.routes, r), path));
    }

    method MatchRegex(lib: Lib, r: Request, path: Bytes) returns (c: Option<Candidate>)
      requires Valid()
      ensures c == RegexCandidate(lib, cfg.routes, r, path)
    {
      var i := FindFirst(regex, AdmitsRegex(lib, cfg.routes, r, path));
      if i == |regex| { return None; }
      return Some(Candidate(regex[i], [], lib.find(cfg.routes[regex[i]].rule.compiled.value, path)));
    }

    method UpstreamTimeout(name: string) returns (ms: int)
      requires IsLastIndex(cfg.upstreams, upstreams)
      ensures ms == TimeoutOf(cfg.upstreams, name)
    {
      if name !in upstreams { return 0; }
      return cfg.upstreams[upstreams[name]].timeout;
    }

    method Failover(name: string) returns (target: Option<FailoverTarget>)
      requires IsLastIndex(cfg.upstreams, upstreams)
      ensures target == FallbackOf(cfg, name)
    {
      if name !in upstreams || cfg.upstreams[upstreams[name]].fallback == "" { return None; }
      var fallback := cfg.upstreams[upstreams[name]].fallback;
      if fallback !in upstreams { return None; }
      var named := cfg.upstreams[upstreams[fallback]];
      if named.name !in cfg.nameToHost { return None; }
      var timeout := UpstreamTimeout(named.name);
      return Some(FailoverTarget(named.name, cfg.nameToHost[named.name], timeout));
    }

    /** `finalize`. */
    method Finalize(lib: Lib, c: Candidate, r: Request, path: Bytes) returns (d: Result<Decision, RouteError>)
      requires IsLastIndex(cfg.upstreams, upstreams) && c.route < |cfg.routes|
      requires Applies(lib, cfg.routes[c.route].rule, r, path) && IsCandidateFor(lib, cfg.routes, path, c)
      ensures IsResolved(lib, cfg, r, path, c.route, d)
    {
      var route := cfg.routes[c.route];
      if route.upstream !in cfg.nameToHost { return Err(HostNotMapped(route.upstream)); }
      var host := cfg.nameToHost[route.upstream];
      var target := OutboundTarget(lib, route.rule, host, c, r, path);
      var timeout := UpstreamTimeout(route.upstream);
      var mirrors := ResolveMirrors(cfg, route.mirrors);
      if mirrors.Err? { return Err(mirrors.error); }
      var fallback := Failover(route.upstream);
      return Ok(Decision(route.upstream, timeout, target, mirrors.value, fallback));
    }
  }

  method OutboundTarget(lib: Lib, rule: Rule, host: Url, c: Candidate, r: Request, path: Bytes) returns (target: Target)
    requires Applies(lib, rule, r, path) && IsCandidateOf(lib, rule, path, c)
    ensures target == Target(host.scheme, host.host, OutboundPath(lib, rule, r, path), r.rawQuery)
  {
    if c.submatch.Some? {
      var expanded := ExpandRegexRewrite(rule.rewrite, path, c.submatch);
      target := BuildTarget(host, expanded, [], r.rawQuery);
    } else {
      target := BuildTarget(host, EffectiveRewrite(rule), c.suffix, r.rawQuery);
    }
  }

  /** The position of the first element that `ok` accepts, or the length. */
  method FindFirst<T>(s: seq<T>, ok: T -> bool) returns (i: nat)
    ensures i <= |s| && FirstOk(s, ok) == if i < |s| then Some(s[i]) else None
    ensures i < |s| ==> ok(s[i])
  {
    i := 0;
    while i < |s|
      invariant i <= |s| && FirstOk(s, ok) == FirstOk(s[i..], ok)
    {
      if ok(s[i]) { return; }
      assert s[i..][1..] == s[i + 1..];
      i := i + 1;
    }
  }

  method ResolveMirrors(cfg: ConfigView, ms: seq<Mirror>) returns (r: Result<seq<MirrorTarget>, RouteError>)
    ensures var missing := FirstOk(ms, Unmapped(cfg));
            if missing.Some? then r == Err(MirrorNotMapped(missing.value.upstream))
            else r.Ok? && ResolvesTo(cfg, ms, r.value)
  {
    var out := [];
    for k := 0 to |ms|
      invariant ResolvesTo(cfg, ms[..k], out)
      invariant FirstOk(ms, Unmapped(cfg)) == FirstOk(ms[k..], Unmapped(cfg))
    {
      if ms[k].upstream !in cfg.nameToHost { return Err(MirrorNotMapped(ms[k].upstream)); }
      assert ms[k..][1..] == ms[k + 1..];
      out := out + [MirrorTarget(cfg.nameToHost[ms[k].upstream], ms[k].ratio)];
    }
    assert ms[..|ms|] == ms;
    return Ok(out);
  }

  method NewRouteIndex(cfg: ConfigView) returns (idx: RouteIndex)
    ensures idx.Valid() && idx.cfg == cfg
    ensures fresh(idx) && fresh(idx.prefix) && fresh(idx.prefix.Repr)
  {
    var byName := IndexByName(cfg.upstreams);
    idx := new RouteIndex(cfg, byName);
    for i := 0 to |cfg.routes|
      invariant fresh(idx) && fresh(idx.prefix) && fresh(idx.prefix.Repr)
      invariant idx.cfg == cfg && idx.upstreams == byName && idx.Filed(i)
    {
      idx.File(i);
    }
  }

  method IndexByName(us: seq<Upstream>) returns (index: map<string, nat>)
    ensures IsLastIndex(us, index)
  {
    index := map[];
    for i := 0 to |us|
      invariant IsLastIndex(us[..i], index)
    {
      assert us[..i + 1][..i] == us[..i];
      index := index[us[i].name := i];
    }
    assert us[..|us|] == us;
  }
}
