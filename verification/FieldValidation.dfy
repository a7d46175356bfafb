/** The checks of single fields in `Config.Validate`: upstream hosts, and the method, headers, hosts
    and client networks of a rule. */
module FieldValidation {
  import opened Foundations
  import opened ConfigModel

  predicate ContainsAny(s: string, chars: string) {
    exists c | c in s :: c in chars
  }

  const WHITESPACE := " \t\n\r"

  // ---- Upstream hosts ----

  datatype HostFault =
    | EmptyHost
    | WhitespaceInHost
    | UnparsableHost
    | BadScheme
    | MissingHost
    | PathInHost
    | QueryInHost
    | FragmentInHost
    | InvalidPort
    | PortOutOfRange(port: int)

  function ValidatePort(lib: Lib, port: string): Option<HostFault> {
    if port == "" then None
    else
      match lib.atoi(port)
      case None => Some(InvalidPort)
      case Some(n) => if n < 1 || n > 65535 then Some(PortOutOfRange(n)) else None
  }

  function ValidateUpstreamHost(lib: Lib, host: string): Option<HostFault> {
    if host == "" then Some(EmptyHost)
    else if ContainsAny(host, WHITESPACE) then Some(WhitespaceInHost)
    else
      match lib.parseUrl(host)
      case None => Some(UnparsableHost)
      case Some(u) =>
        if u.scheme != "http" && u.scheme != "https" then Some(BadScheme)
        else if u.host == "" then Some(MissingHost)
        else if u.path != "" && u.path != "/" then Some(PathInHost)
        else if u.rawQuery != "" then Some(QueryInHost)
        else if u.fragment != "" then Some(FragmentInHost)
        else ValidatePort(lib, u.port)
  }

  /** An http or https origin: nothing but a host and, perhaps, a port in range. */
  ghost predicate IsOrigin(lib: Lib, u: Url) {
    && u.scheme in {"http", "https"} && u.host != "" && u.path in {"", "/"} && u.rawQuery == u.fragment == ""
    && (u.port == "" || exists n | 1 <= n <= 65535 :: lib.atoi(u.port) == Some(n))
  }

  /** A host passes exactly when it is an origin without white space. */
  lemma GoodHostIsOrigin(lib: Lib, host: string)
    ensures ValidateUpstreamHost(lib, host).None?
       <==> && host != "" && (forall c | c in host :: c !in WHITESPACE)
            && lib.parseUrl(host).Some? && IsOrigin(lib, lib.parseUrl(host).value)
  {
  }

  // ---- Rules ----

  datatype PatternFault = EmptyPattern | WhitespaceInPattern | PathInPattern | PortInPattern | BadWildcard

  datatype FieldFault =
    | LowercaseMethod
    | UnknownMethod
    | BadHeaderName(j: nat)
    | DuplicateHeader(j: nat, first: nat)
    | UnexpectedValue(j: nat)
    | MissingValue(j: nat)
    | UnknownOp(j: nat)
    | BadHostPattern(j: nat, why: PatternFault)
    | BadCIDR(j: nat)

  const HTTP_METHODS := {"GET", "POST", "PUT", "PATCH", "DELETE", "HEAD", "OPTIONS", "CONNECT", "TRACE"}

  /** A tchar of section 3.2.6 of RFC 7230. */
  predicate IsTokenChar(c: char) {
    'a' <= c <= 'z' || 'A' <= c <= 'Z' || '0' <= c <= '9' || c in "!#$%&'*+-.^_`|~"
  }

  /** The visible characters that are no delimiters. */
  lemma TokenCharsAreNotDelimiters(c: char)
    ensures IsTokenChar(c) <==> '!' <= c <= '~' && c !in "\"(),/:;<=>?@[\\]{}"
  {
    assert c in "\"(),/:;<=>?@[\\]{}" <==>
      c in {'\"', '(', ')', ',', '/', ':', ';', '<', '=', '>', '?', '@', '[', '\\', ']', '{', '}'};
    assert c in "!#$%&'*+-.^_`|~" <==>
      c in {'!', '#', '$', '%', '&', '\'', '*', '+', '-', '.', '^', '_', '`', '|', '~'};
  }

  predicate IsHeaderName(s: string) {
    s != "" && forall c | c in s :: IsTokenChar(c)
  }

  function ValidateHostPattern(h: string): Option<PatternFault> {
    if h == "" then Some(EmptyPattern)
    else if ContainsAny(h, WHITESPACE) then Some(WhitespaceInPattern)
    else if ContainsAny(h, "/?#") then Some(PathInPattern)
    else if ':' in h then Some(PortInPattern)
    else if '*' in h && (!("*." <= h) || multiset(h)['*'] != 1) then Some(BadWildcard)
    else None
  }

  /** A name, or one wildcard label in front of a name. */
  ghost predicate IsHostPattern(h: string) {
    && h != "" && (forall c | c in h :: c !in " \t\n\r/?#:")
    && ('*' !in h || exists domain: string :: h == "*." + domain && '*' !in domain)
  }

  lemma GoodPatternIsNameOrSubdomains(h: string)
    ensures ValidateHostPattern(h).None? <==> IsHostPattern(h)
  {
    assert " \t\n\r/?#:" == WHITESPACE + "/?#" + ":";
    if "*." <= h {
      var rest := h[2..];
      assert h == "*." + rest;
      assert multiset(h) == multiset("*.") + multiset(rest);
      assert '*' in rest <==> multiset(rest)['*'] > 0;
    }
  }

  /** `first` is the earliest of the first `n` headers with a well-formed name and this key. */
  ghost predicate FirstHeader(lib: Lib, hs: seq<HeaderMatch>, n: nat, key: string, first: nat)
    requires n <= |hs|
  {
    && first < n && HasKey(lib, hs[first], key)
    && forall k | 0 <= k < first :: !HasKey(lib, hs[k], key)
  }

  predicate HasKey(lib: Lib, h: HeaderMatch, key: string) {
    IsHeaderName(h.name) && lib.lower(h.name) == key
  }

  /** Header `j` is well formed and the first of its name. */
  ghost predicate IsNewHeader(lib: Lib, hs: seq<HeaderMatch>, j: nat)
    requires j < |hs|
  {
    IsHeaderName(hs[j].name) && forall k | 0 <= k < j :: !HasKey(lib, hs[k], lib.lower(hs[j].name))
  }

  ghost predicate HeaderFaultAt(lib: Lib, hs: seq<HeaderMatch>, j: nat, f: FieldFault)
    requires j < |hs|
  {
    match f
    case BadHeaderName(k) => k == j && !IsHeaderName(hs[j].name)
    case DuplicateHeader(k, first) =>
      k == j && IsHeaderName(hs[j].name) && FirstHeader(lib, hs, j, lib.lower(hs[j].name), first)
    case UnexpectedValue(k) =>
      k == j && IsNewHeader(lib, hs, j) && EffectiveOp(hs[j]).Present? && hs[j].value != ""
    case MissingValue(k) =>
      k == j && IsNewHeader(lib, hs, j) && EffectiveOp(hs[j]) in {Equals, Prefix, Contains} && hs[j].value == ""
    case UnknownOp(k) => k == j && IsNewHeader(lib, hs, j) && EffectiveOp(hs[j]).Unknown?
    case _ => false
  }

  ghost predicate IsHeaderFault(lib: Lib, hs: seq<HeaderMatch>, f: FieldFault) {
    exists j: nat | j < |hs| :: HeaderFaultAt(lib, hs, j, f)
  }

  ghost predicate IsFieldFault(lib: Lib, r: Rule, f: FieldFault) {
    match f
    case LowercaseMethod => r.httpMethod != "" && r.httpMethod != lib.upper(r.httpMethod)
    case UnknownMethod => r.httpMethod != "" && lib.upper(r.httpMethod) !in HTTP_METHODS
    case BadHostPattern(j, why) => j < |r.hosts| && ValidateHostPattern(r.hosts[j]) == Some(why)
    case BadCIDR(j) => j < |r.clientCIDRs| && !lib.parsesCIDR(r.clientCIDRs[j])
    case _ => IsHeaderFault(lib, r.headers, f)
  }

  // ---- What passes ----

  /** Well-formed names, no name twice, and a value exactly where the operator takes one. */
  ghost predicate AreGoodHeaders(lib: Lib, hs: seq<HeaderMatch>) {
    && (forall h | h in hs :: IsHeaderName(h.name))
    && (forall j, k | 0 <= j < k < |hs| :: lib.lower(hs[j].name) != lib.lower(hs[k].name))
    && (forall h | h in hs ::
          && !h.op.Unknown? && (h.op.Present? ==> h.value == "")
          && (h.op in {Equals, Prefix, Contains} ==> h.value != ""))
  }

  lemma HeadersPassExactly(lib: Lib, hs: seq<HeaderMatch>)
    ensures (forall f :: !IsHeaderFault(lib, hs, f)) <==> AreGoodHeaders(lib, hs)
  {
    if forall f :: !IsHeaderFault(lib, hs, f) {
      forall j: nat | j < |hs| ensures IsHeaderName(hs[j].name) && IsNewHeader(lib, hs, j) {
        NoHeaderFault(lib, hs, j, BadHeaderName(j));
        forall k | 0 <= k < j ensures !HasKey(lib, hs[k], lib.lower(hs[j].name)) {
          if HasKey(lib, hs[k], lib.lower(hs[j].name)) {
            var first := FirstWithName(lib, hs, k, lib.lower(hs[j].name));
            NoHeaderFault(lib, hs, j, DuplicateHeader(j, first));
          }
        }
      }
      forall j: nat | j < |hs|
        ensures !hs[j].op.Unknown? && (hs[j].op.Present? ==> hs[j].value == "")
        ensures hs[j].op in {Equals, Prefix, Contains} ==> hs[j].value != ""
      {
        NoHeaderFault(lib, hs, j, UnexpectedValue(j));
        NoHeaderFault(lib, hs, j, MissingValue(j));
        NoHeaderFault(lib, hs, j, UnknownOp(j));
      }
      forall j, k | 0 <= j < k < |hs| ensures lib.lower(hs[j].name) != lib.lower(hs[k].name) {
        assert IsNewHeader(lib, hs, k) && !HasKey(lib, hs[j], lib.lower(hs[k].name));
      }
    }
  }

  lemma NoHeaderFault(lib: Lib, hs: seq<HeaderMatch>, j: nat, f: FieldFault)
    requires j < |hs| && forall g :: !IsHeaderFault(lib, hs, g)
    ensures !HeaderFaultAt(lib, hs, j, f)
  {
    assert !IsHeaderFault(lib, hs, f);
  }

  lemma {:induction false} FirstWithName(lib: Lib, hs: seq<HeaderMatch>, k: nat, key: string) returns (first: nat)
    requires k < |hs| && HasKey(lib, hs[k], key)
    ensures first <= k && HasKey(lib, hs[first], key) && forall q | 0 <= q < first :: !HasKey(lib, hs[q], key)
  {
    if q :| 0 <= q < k && HasKey(lib, hs[q], key) {
      first := FirstWithName(lib, hs, q, key);
    } else {
      first := k;
    }
  }

  /** A known method in upper case, and good headers, host patterns and networks. */
  ghost predicate AreGoodFields(lib: Lib, r: Rule) {
    && (r.httpMethod == "" || (lib.upper(r.httpMethod) == r.httpMethod
        && r.httpMethod in {"GET", "HEAD", "POST", "PUT", "PATCH", "DELETE", "CONNECT", "OPTIONS", "TRACE"}))
    && AreGoodHeaders(lib, r.headers) && (forall h | h in r.hosts :: IsHostPattern(h))
    && (forall c | c in r.clientCIDRs :: lib.parsesCIDR(c))
  }

  lemma FieldsPassExactly(lib: Lib, r: Rule)
    ensures (forall f :: !IsFieldFault(lib, r, f)) <==> AreGoodFields(lib, r)
  {
    HeadersPassExactly(lib, r.headers);
    assert !IsHeaderFault(lib, r.headers, LowercaseMethod) && !IsHeaderFault(lib, r.headers, UnknownMethod);
    forall h ensures ValidateHostPattern(h).None? <==> IsHostPattern(h) { GoodPatternIsNameOrSubdomains(h); }
    if forall f :: !IsFieldFault(lib, r, f) {
      assert !IsFieldFault(lib, r, LowercaseMethod) && !IsFieldFault(lib, r, UnknownMethod);
      forall f ensures !IsHeaderFault(lib, r.headers, f) { assert !IsFieldFault(lib, r, f); }
      forall j: nat | j < |r.hosts| ensures IsHostPattern(r.hosts[j]) {
        var why := ValidateHostPattern(r.hosts[j]);
        if why.Some? { NoFieldFault(lib, r, BadHostPattern(j, why.value)); }
      }
      forall j: nat | j < |r.clientCIDRs| ensures lib.parsesCIDR(r.clientCIDRs[j]) { NoFieldFault(lib, r, BadCIDR(j)); }
    }
  }

  lemma NoFieldFault(lib: Lib, r: Rule, f: FieldFault)
    requires forall g :: !IsFieldFault(lib, r, g)
    ensures !IsFieldFault(lib, r, f)
  {
  }

  // ---- The checks ----

  method ValidateMethod(lib: Lib, r: Rule) returns (errs: seq<FieldFault>)
    ensures forall f :: f in errs <==> (f.LowercaseMethod? || f.UnknownMethod?) && IsFieldFault(lib, r, f)
  {
    errs := [];
    if r.httpMethod != "" {
      if r.httpMethod != lib.upper(r.httpMethod) { errs := errs + [LowercaseMethod]; }
      if lib.upper(r.httpMethod) !in HTTP_METHODS { errs := errs + [UnknownMethod]; }
    }
  }

  function OpFault(j: nat, h: HeaderMatch): seq<FieldFault> {
    match EffectiveOp(h)
    case Present => if h.value != "" then [UnexpectedValue(j)] else []
    case Unknown(_) => [UnknownOp(j)]
    case _ => if h.value == "" then [MissingValue(j)] else []
  }

  ghost predicate SeenHeaders(lib: Lib, hs: seq<HeaderMatch>, n: nat, seen: map<string, nat>)
    requires n <= |hs|
  {
    && (forall key | key in seen :: FirstHeader(lib, hs, n, key, seen[key]))
    && (forall k | 0 <= k < n && IsHeaderName(hs[k].name) :: lib.lower(hs[k].name) in seen)
  }

  /** One turn of the loop over the headers. */
  method ValidateHeader(lib: Lib, hs: seq<HeaderMatch>, j: nat, seen: map<string, nat>)
    returns (errs: seq<FieldFault>, seen': map<string, nat>)
    requires j < |hs| && SeenHeaders(lib, hs, j, seen)
    ensures forall f :: f in errs <==> HeaderFaultAt(lib, hs, j, f)
    ensures SeenHeaders(lib, hs, j + 1, seen')
  {
    var h := hs[j];
    if !IsHeaderName(h.name) { return [BadHeaderName(j)], seen; }
    var key := lib.lower(h.name);
    if key in seen { return [DuplicateHeader(j, seen[key])], seen; }
    return OpFault(j, h), seen[key := j];
  }

  method ValidateHeaders(lib: Lib, hs: seq<HeaderMatch>) returns (errs: seq<FieldFault>)
    ensures forall f :: f in errs <==> IsHeaderFault(lib, hs, f)
  {
    errs := [];
    var seen: map<string, nat> := map[];
    for j := 0 to |hs|
      invariant forall f :: f in errs <==> exists k: nat | k < j :: HeaderFaultAt(lib, hs, k, f)
      invariant SeenHeaders(lib, hs, j, seen)
    {
      var found: seq<FieldFault>;
      found, seen := ValidateHeader(lib, hs, j, seen);
      errs := errs + found;
    }
  }

  method ValidateHosts(hosts: seq<string>) returns (errs: seq<FieldFault>)
    ensures forall f :: f in errs
                   <==> f.BadHostPattern? && f.j < |hosts| && ValidateHostPattern(hosts[f.j]) == Some(f.why)
  {
    errs := [];
    for j := 0 to |hosts|
      invariant forall f :: f in errs
                       <==> f.BadHostPattern? && f.j < j && ValidateHostPattern(hosts[f.j]) == Some(f.why)
    {
      var why := ValidateHostPattern(hosts[j]);
      if why.Some? { errs := errs + [BadHostPattern(j, why.value)]; }
    }
  }

  method ValidateClientCIDRs(lib: Lib, cidrs: seq<string>) returns (errs: seq<FieldFault>)
    ensures forall f :: f in errs <==> f.BadCIDR? && f.j < |cidrs| && !lib.parsesCIDR(cidrs[f.j])
  {
    errs := [];
    for j := 0 to |cidrs|
      invariant forall f :: f in errs <==> f.BadCIDR? && f.j < j && !lib.parsesCIDR(cidrs[f.j])
    {
      if !lib.parsesCIDR(cidrs[j]) { errs := errs + [BadCIDR(j)]; }
    }
  }

  method ValidateFields(lib: Lib, r: Rule) returns (errs: seq<FieldFault>)
    ensures forall f :: f in errs <==> IsFieldFault(lib, r, f)
  {
    var ofMethod := ValidateMethod(lib, r);
    var ofHeaders := ValidateHeaders(lib, r.headers);
    var ofHosts := ValidateHosts(r.hosts);
    var ofCIDRs := ValidateClientCIDRs(lib, r.clientCIDRs);
    errs := ofMethod + ofHeaders + ofHosts + ofCIDRs;
  }
}
