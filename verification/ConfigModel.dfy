/** The routing config, what `ParseConfig` derives from it, and the library calls it rests on. */
module ConfigModel {
  import opened Foundations
  import opened RewriteTemplate

  /** A parsed upstream host; `port` is that of `host`. */
  datatype Url = Url(scheme: string, host: string, port: string, path: string, rawQuery: string, fragment: string)

  datatype Upstream = Upstream(name: string, host: string, timeout: int, fallback: string)

  datatype HeaderOp = Unset | Present | Equals | Prefix | Contains | Unknown(op: string)
  datatype HeaderMatch = HeaderMatch(name: string, value: string, op: HeaderOp)

  /** The shorthand: no operator means present without a value and equals with one. */
  function EffectiveOp(h: HeaderMatch): (op: HeaderOp)
    ensures op != Unset
  {
    if h.op != Unset then h.op else if h.value == "" then Present else Equals
  }

  /** `compiled` is the compiled regex, named by its pattern. */
  datatype Rule = Rule(
    pathPrefix: Bytes, path: Bytes, regex: string, rewrite: Bytes,
    httpMethod: string, headers: seq<HeaderMatch>, hosts: seq<string>, clientCIDRs: seq<string>,
    compiled: Option<string>)

  datatype Mirror = Mirror(upstream: string, ratio: real)
  datatype Route = Route(rule: Rule, upstream: string, mirrors: seq<Mirror>)

  /** The value of a config once `ParseConfig` has returned: nobody writes it afterwards. */
  datatype ConfigView = ConfigView(upstreams: seq<Upstream>, routes: seq<Route>, nameToHost: map<string, Url>)

  // ---- The key of a rule (`dedupKey`) ----

  function Text(b: Bytes): string {
    seq(|b|, i requires 0 <= i < |b| => b[i] as char)
  }

  function OpText(op: HeaderOp): string {
    match op
    case Unset => ""
    case Present => "present"
    case Equals => "equals"
    case Prefix => "prefix"
    case Contains => "contains"
    case Unknown(text) => text
  }

  function HeaderKeys(lower: string -> string, hs: seq<HeaderMatch>): string {
    if hs == [] then ""
    else
      "|" + lower(hs[0].name) + "=" + OpText(EffectiveOp(hs[0])) + ":" + hs[0].value + HeaderKeys(lower, hs[1..])
  }

  function HostKeys(lower: string -> string, hosts: seq<string>): string {
    if hosts == [] then "" else "|" + lower(hosts[0]) + HostKeys(lower, hosts[1..])
  }

  function NetworkKeys(cidrs: seq<string>): string {
    if cidrs == [] then "" else "|" + cidrs[0] + NetworkKeys(cidrs[1..])
  }

  function KeyText(upper: string -> string, lower: string -> string, r: Rule): string {
    upper(r.httpMethod)
    + ("|" + (Text(r.path) + ("|" + (Text(r.pathPrefix) + ("|" + (r.regex + ConditionKeys(lower, r)))))))
  }

  function ConditionKeys(lower: string -> string, r: Rule): string {
    HeaderKeys(lower, r.headers) + (HostKeys(lower, r.hosts) + NetworkKeys(r.clientCIDRs))
  }

  // ---- Library calls ----

  datatype RawLib = RawLib(
    parseUrl: string -> Option<Url>,               // url.Parse
    compiles: string -> bool,                      // regexp.Compile succeeds
    find: (string, Bytes) -> Option<seq<int>>,     // FindStringSubmatchIndex
    matchString: (string, Bytes) -> bool,          // MatchString
    isBlank: string -> bool,                       // TrimSpace(s) == ""
    atoi: string -> Option<int>,                   // strconv.Atoi
    dedupKey: Rule -> string,                      // not a library call: see IsKey
    upper: string -> string,                       // strings.ToUpper
    lower: string -> string,                       // strings.ToLower
    parsesCIDR: string -> bool,                    // net.ParseCIDR succeeds
    cidrContains: (string, string) -> bool,        // Contains of the parsed network
    splitHostPort: string -> Option<string>,       // the host of net.SplitHostPort
    parseIP: string -> Option<string>)             // net.ParseIP

  /** The record holds the key of each rule, computed as `dedupKey` does. */
  predicate IsKey(l: RawLib, r: Rule) {
    l.dedupKey(r) == KeyText(l.upper, l.lower, r)
  }

  /** All that is used about them: a regex matches exactly when it returns indices, which are then
      well formed, and the empty string is blank. */
  ghost predicate LibFacts(l: RawLib) {
    && l.isBlank("")
    && (forall r {:trigger IsKey(l, r)} :: IsKey(l, r))
    && (forall p, x :: l.find(p, x).Some? == l.matchString(p, x)
                    && (l.find(p, x).Some? ==> WellFormedMatch(l.find(p, x).value, |x|)))
  }

  type Lib = l: RawLib | LibFacts(l) ghost witness
    RawLib(s => None, s => true, (p, x) => None, (p, x) => false, s => true, s => None,
           r => KeyText(s => s, s => s, r), s => s, s => s, s => true, (c, a) => false, s => None, s => None)

  // ---- Derived data ----

  ghost function Names(us: seq<Upstream>): set<string> {
    set u | u in us :: u.name
  }

  /** Later upstreams overwrite earlier ones of the same name. */
  function LastNamed(us: seq<Upstream>, name: string): (r: Option<nat>)
    ensures r.Some? ==> r.value < |us| && us[r.value].name == name
    ensures r.Some? ==> forall j | r.value < j < |us| :: us[j].name != name
    ensures r.None? <==> name !in Names(us)
  {
    if us == [] then None
    else if us[|us| - 1].name == name then Some(|us| - 1)
    else
      assert us == us[..|us| - 1] + [us[|us| - 1]];
      LastNamed(us[..|us| - 1], name)
  }

  /** The last upstream of its name: the one that the name stands for. */
  ghost predicate IsLast(us: seq<Upstream>, i: nat) {
    i < |us| && forall j | i < j < |us| :: us[j].name != us[i].name
  }

  predicate HasGoodUrl(lib: Lib, u: Upstream) {
    var parsed := lib.parseUrl(u.host);
    parsed.Some? && (parsed.value.scheme == "http" || parsed.value.scheme == "https")
  }

  function HostNamed(lib: Lib, us: seq<Upstream>, name: string): Url
    requires forall u | u in us :: HasGoodUrl(lib, u)
    requires LastNamed(us, name).Some?
  {
    var u := us[LastNamed(us, name).value];
    assert HasGoodUrl(lib, u);
    lib.parseUrl(u.host).value
  }

  ghost function HostsByName(lib: Lib, us: seq<Upstream>): map<string, Url>
    requires forall u | u in us :: HasGoodUrl(lib, u)
  {
    map n | n in Names(us) :: HostNamed(lib, us, n)
  }

  lemma OneMoreHost(lib: Lib, us: seq<Upstream>, u: Upstream)
    requires (forall v | v in us :: HasGoodUrl(lib, v)) && HasGoodUrl(lib, u)
    ensures forall v | v in us + [u] :: HasGoodUrl(lib, v)
    ensures HostsByName(lib, us + [u]) == HostsByName(lib, us)[u.name := lib.parseUrl(u.host).value]
  {
  }

  lemma HostsOfLast(lib: Lib, us: seq<Upstream>)
    requires forall u | u in us :: HasGoodUrl(lib, u)
    ensures HostsByName(lib, us).Keys == Names(us)
    ensures forall i: nat | IsLast(us, i) ::
              us[i].name in HostsByName(lib, us) && Some(HostsByName(lib, us)[us[i].name]) == lib.parseUrl(us[i].host)
  {
    forall i: nat | IsLast(us, i)
      ensures us[i].name in HostsByName(lib, us) && Some(HostsByName(lib, us)[us[i].name]) == lib.parseUrl(us[i].host)
    {
      assert us[i] in us && us[i].name in Names(us) && HasGoodUrl(lib, us[i]);
      assert LastNamed(us, us[i].name) == Some(i);
    }
  }

  /** `now` is `was` with the regex of its rule, if there is one, compiled. */
  predicate IsCompiledFrom(now: Route, was: Route) {
    && now.upstream == was.upstream && now.mirrors == was.mirrors
    && now.rule.(compiled := was.rule.compiled) == was.rule
    && now.rule.compiled == (if was.rule.regex != "" then Some(was.rule.regex) else was.rule.compiled)
  }

  function Compiled(r: Route): Route {
    if r.rule.regex == "" then r else r.(rule := r.rule.(compiled := Some(r.rule.regex)))
  }

  datatype Document = Document(upstreams: seq<Upstream>, routes: seq<Route>)
  datatype ParseError = Unreadable | BadUpstreamUrl(i: nat) | RegexDoesNotCompile(i: nat)

  ghost predicate Parses(lib: Lib, doc: Document) {
    && (forall u | u in doc.upstreams :: HasGoodUrl(lib, u))
    && (forall r | r in doc.routes :: r.rule.regex == "" || lib.compiles(r.rule.regex))
  }

  ghost function ParsedView(lib: Lib, doc: Document): ConfigView
    requires Parses(lib, doc)
  {
    ConfigView(doc.upstreams, seq(|doc.routes|, i requires 0 <= i < |doc.routes| => Compiled(doc.routes[i])),
               HostsByName(lib, doc.upstreams))
  }

  class Config {
    var upstreams: seq<Upstream>
    var routes: seq<Route>
    var nameToHost: map<string, Url>

    function View(): ConfigView
      reads this
    {
      ConfigView(upstreams, routes, nameToHost)
    }

    constructor (upstreams: seq<Upstream>, routes: seq<Route>)
      ensures View() == ConfigView(upstreams, routes, map[])
    {
      this.upstreams, this.routes, this.nameToHost := upstreams, routes, map[];
    }

    /** All or nothing: a bad host leaves the field alone. */
    method MapNamesToHosts(lib: Lib) returns (err: Option<ParseError>)
      modifies `nameToHost
      ensures err.None? <==> forall u | u in upstreams :: HasGoodUrl(lib, u)
      ensures err.None? ==> nameToHost == HostsByName(lib, upstreams) && nameToHost.Keys == Names(upstreams)
      ensures err.None? ==> forall i: nat | IsLast(upstreams, i) ::
                              && upstreams[i].name in nameToHost
                              && Some(nameToHost[upstreams[i].name]) == lib.parseUrl(upstreams[i].host)
      ensures err.Some? ==> nameToHost == old(nameToHost)
      ensures err.Some? ==> 
                err.value.BadUpstreamUrl? && err.value.i < |upstreams| && !HasGoodUrl(lib, upstreams[err.value.i])
    {
      var hosts: map<string, Url> := map[];
      for i := 0 to |upstreams|
        invariant nameToHost == old(nameToHost)
        invariant forall u | u in upstreams[..i] :: HasGoodUrl(lib, u)
        invariant hosts == HostsByName(lib, upstreams[..i])
      {
        var u := upstreams[i];
        var parsed := lib.parseUrl(u.host);
        assert u in upstreams;
        if parsed.None? { return Some(BadUpstreamUrl(i)); }
        if parsed.value.scheme != "http" && parsed.value.scheme != "https" { return Some(BadUpstreamUrl(i)); }
        assert upstreams[..i + 1] == upstreams[..i] + [u];
        OneMoreHost(lib, upstreams[..i], u);
        hosts := hosts[u.name := parsed.value];
      }
      assert upstreams[..|upstreams|] == upstreams;
      HostsOfLast(lib, upstreams);
      nameToHost := hosts;
      return None;
    }

    method CompileRegexes(lib: Lib) returns (err: Option<ParseError>)
      modifies `routes
      ensures |routes| == |old(routes)|
      ensures err.None? <==> forall r | r in old(routes) :: r.rule.regex == "" || lib.compiles(r.rule.regex)
      ensures err.None? ==> forall i | 0 <= i < |routes| ::
                              routes[i] == Compiled(old(routes)[i]) && IsCompiledFrom(routes[i], old(routes)[i])
      ensures err.Some? ==> 
                err.value.RegexDoesNotCompile? && err.value.i < |routes|
                && !lib.compiles(old(routes)[err.value.i].rule.regex)
    {
      for i := 0 to |routes|
        invariant |routes| == |old(routes)|
        invariant forall k | 0 <= k < i :: routes[k] == Compiled(old(routes)[k])
        invariant forall k | 0 <= k < i :: old(routes)[k].rule.regex == "" || lib.compiles(old(routes)[k].rule.regex)
        invariant forall k | i <= k < |routes| :: routes[k] == old(routes)[k]
      {
        var rule := routes[i].rule;
        if rule.regex != "" {
          if !lib.compiles(rule.regex) { return Some(RegexDoesNotCompile(i)); }
          routes := routes[i := routes[i].(rule := rule.(compiled := Some(rule.regex)))];
        }
      }
      return None;
    }
  }

  /** `doc` is the decoded file, or nothing when opening or decoding it failed. */
  method ParseConfig(lib: Lib, doc: Option<Document>) returns (r: Result<Config, ParseError>)
    ensures r.Ok? <==> doc.Some? && Parses(lib, doc.value)
    ensures r.Ok? ==> fresh(r.value) && r.value.View() == ParsedView(lib, doc.value)
  {
    if doc.None? { return Err(Unreadable); }
    var cfg := new Config(doc.value.upstreams, doc.value.routes);
    var err := cfg.MapNamesToHosts(lib);
    if err.Some? { return Err(err.value); }
    err := cfg.CompileRegexes(lib);
    if err.Some? { return Err(err.value); }
    return Ok(cfg);
  }
}
