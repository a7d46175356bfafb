/** Which rules `dedupKey` takes for duplicates. */
module RuleKeys {
  import opened Foundations
  import opened ConfigModel

  /** The same conditions, but for the case of methods, hosts and header names and for the shorthand. */
  ghost predicate AskTheSame(lib: Lib, r: Rule, q: Rule) {
    && lib.upper(r.httpMethod) == lib.upper(q.httpMethod)
    && r.path == q.path && r.pathPrefix == q.pathPrefix && r.regex == q.regex && r.clientCIDRs == q.clientCIDRs
    && |r.hosts| == |q.hosts| && (forall j | 0 <= j < |r.hosts| :: lib.lower(r.hosts[j]) == lib.lower(q.hosts[j]))
    && |r.headers| == |q.headers| && (forall j | 0 <= j < |r.headers| :: SameHeader(lib, r.headers[j], q.headers[j]))
  }

  predicate SameHeader(lib: Lib, h: HeaderMatch, g: HeaderMatch) {
    lib.lower(h.name) == lib.lower(g.name) && EffectiveOp(h) == EffectiveOp(g) && h.value == g.value
  }

  lemma {:induction false} SameHeaderKeys(lib: Lib, hs: seq<HeaderMatch>, gs: seq<HeaderMatch>)
    requires |hs| == |gs| && forall j | 0 <= j < |hs| :: SameHeader(lib, hs[j], gs[j])
    ensures HeaderKeys(lib.lower, hs) == HeaderKeys(lib.lower, gs)
  {
    if hs != [] {
      assert SameHeader(lib, hs[0], gs[0]);
      SameHeaderKeys(lib, hs[1..], gs[1..]);
    }
  }

  lemma {:induction false} SameHostKeys(lib: Lib, hs: seq<string>, gs: seq<string>)
    requires |hs| == |gs| && forall j | 0 <= j < |hs| :: lib.lower(hs[j]) == lib.lower(gs[j])
    ensures HostKeys(lib.lower, hs) == HostKeys(lib.lower, gs)
  {
    if hs != [] {
      assert lib.lower(hs[0]) == lib.lower(gs[0]);
      SameHostKeys(lib, hs[1..], gs[1..]);
    }
  }

  /** Rules that ask the same are duplicates, whatever their compiled regex. */
  lemma SameRuleSameKey(lib: Lib, r: Rule, q: Rule)
    requires AskTheSame(lib, r, q)
    ensures lib.dedupKey(r) == lib.dedupKey(q)
  {
    assert IsKey(lib, r) && IsKey(lib, q);
    SameHeaderKeys(lib, r.headers, q.headers);
    SameHostKeys(lib, r.hosts, q.hosts);
  }

  lemma CancelFront(front: string, x: string, y: string)
    requires front + x == front + y
    ensures x == y
  {
    assert x == (front + x)[|front|..] && y == (front + y)[|front|..];
  }

  lemma CancelBack(x: string, y: string, back: string)
    requires x + back == y + back
    ensures x == y
  {
    assert |x| == |y|;
    assert x == (x + back)[..|x|] && y == (y + back)[..|y|];
  }

  lemma TextTellsApart(a: Bytes, b: Bytes)
    requires Text(a) == Text(b)
    ensures a == b
  {
    assert |Text(a)| == |a| && |Text(b)| == |b|;
    forall i | 0 <= i < |a| ensures a[i] == b[i] { assert Text(a)[i] == a[i] as char && Text(b)[i] == b[i] as char; }
  }

  /** Rules that differ in one of these are no duplicates. */
  lemma OneDifferenceIsEnough(lib: Lib, r: Rule, q: Rule)
    requires lib.dedupKey(r) == lib.dedupKey(q)
    ensures q == r.(httpMethod := q.httpMethod) ==> lib.upper(q.httpMethod) == lib.upper(r.httpMethod)
    ensures q == r.(path := q.path) || q == r.(pathPrefix := q.pathPrefix) || q == r.(regex := q.regex) ==> q == r
    ensures q == r.(headers := q.headers) ==> HeaderKeys(lib.lower, q.headers) == HeaderKeys(lib.lower, r.headers)
    ensures q == r.(hosts := q.hosts) ==> HostKeys(lib.lower, q.hosts) == HostKeys(lib.lower, r.hosts)
    ensures q == r.(clientCIDRs := q.clientCIDRs) ==> NetworkKeys(q.clientCIDRs) == NetworkKeys(r.clientCIDRs)
  {
    assert IsKey(lib, r) && IsKey(lib, q);
    if q == r.(httpMethod := q.httpMethod) {
      CancelBack(lib.upper(q.httpMethod), lib.upper(r.httpMethod), AfterMethod(lib, r));
    } else if q.httpMethod == r.httpMethod {
      CancelFront(lib.upper(r.httpMethod), AfterMethod(lib, q), AfterMethod(lib, r));
      PathTellsApart(lib, r, q);
    }
  }

  function AfterMethod(lib: Lib, r: Rule): string {
    "|" + (Text(r.path) + AfterPath(lib, r))
  }

  function AfterPath(lib: Lib, r: Rule): string {
    "|" + (Text(r.pathPrefix) + AfterPrefix(lib, r))
  }

  function AfterPrefix(lib: Lib, r: Rule): string {
    "|" + (r.regex + ConditionKeys(lib.lower, r))
  }

  lemma PathTellsApart(lib: Lib, r: Rule, q: Rule)
    requires AfterMethod(lib, q) == AfterMethod(lib, r)
    ensures q == r.(path := q.path) || q == r.(pathPrefix := q.pathPrefix) || q == r.(regex := q.regex) ==> q == r
    ensures q == r.(headers := q.headers) ==> HeaderKeys(lib.lower, q.headers) == HeaderKeys(lib.lower, r.headers)
    ensures q == r.(hosts := q.hosts) ==> HostKeys(lib.lower, q.hosts) == HostKeys(lib.lower, r.hosts)
    ensures q == r.(clientCIDRs := q.clientCIDRs) ==> NetworkKeys(q.clientCIDRs) == NetworkKeys(r.clientCIDRs)
  {
    CancelFront("|", Text(q.path) + AfterPath(lib, q), Text(r.path) + AfterPath(lib, r));
    if q == r.(path := q.path) {
      CancelBack(Text(q.path), Text(r.path), AfterPath(lib, r));
      TextTellsApart(q.path, r.path);
    } else if q.path == r.path {
      CancelFront(Text(r.path), AfterPath(lib, q), AfterPath(lib, r));
      CancelFront("|", Text(q.pathPrefix) + AfterPrefix(lib, q), Text(r.pathPrefix) + AfterPrefix(lib, r));
      if q == r.(pathPrefix := q.pathPrefix) {
        CancelBack(Text(q.pathPrefix), Text(r.pathPrefix), AfterPrefix(lib, r));
        TextTellsApart(q.pathPrefix, r.pathPrefix);
      } else if q.pathPrefix == r.pathPrefix {
        CancelFront(Text(r.pathPrefix), AfterPrefix(lib, q), AfterPrefix(lib, r));
        ConditionsTellApart(lib, r, q);
      }
    }
  }

  lemma ConditionsTellApart(lib: Lib, r: Rule, q: Rule)
    requires AfterPrefix(lib, q) == AfterPrefix(lib, r)
    ensures q == r.(regex := q.regex) ==> q == r
    ensures q == r.(headers := q.headers) ==> HeaderKeys(lib.lower, q.headers) == HeaderKeys(lib.lower, r.headers)
    ensures q == r.(hosts := q.hosts) ==> HostKeys(lib.lower, q.hosts) == HostKeys(lib.lower, r.hosts)
    ensures q == r.(clientCIDRs := q.clientCIDRs) ==> NetworkKeys(q.clientCIDRs) == NetworkKeys(r.clientCIDRs)
  {
    var headers, hosts := HeaderKeys(lib.lower, r.headers), HostKeys(lib.lower, r.hosts);
    var networks := NetworkKeys(r.clientCIDRs);
    CancelFront("|", q.regex + ConditionKeys(lib.lower, q), r.regex + ConditionKeys(lib.lower, r));
    if q == r.(regex := q.regex) {
      CancelBack(q.regex, r.regex, ConditionKeys(lib.lower, r));
    } else if q.regex == r.regex {
      CancelFront(r.regex, ConditionKeys(lib.lower, q), ConditionKeys(lib.lower, r));
      if q == r.(headers := q.headers) {
        CancelBack(HeaderKeys(lib.lower, q.headers), headers, hosts + networks);
      } else if q == r.(hosts := q.hosts) {
        CancelFront(headers, HostKeys(lib.lower, q.hosts) + networks, hosts + networks);
        CancelBack(HostKeys(lib.lower, q.hosts), hosts, networks);
      } else if q == r.(clientCIDRs := q.clientCIDRs) {
        CancelFront(headers, hosts + NetworkKeys(q.clientCIDRs), hosts + networks);
        CancelFront(hosts, NetworkKeys(q.clientCIDRs), networks);
      }
    }
  }

  lemma KeysOfOne(lib: Lib, c: string, h: HeaderMatch)
    ensures NetworkKeys([c]) == "|" + c
    ensures HostKeys(lib.lower, [c]) == "|" + lib.lower(c)
    ensures HeaderKeys(lib.lower, [h]) == "|" + lib.lower(h.name) + "=" + OpText(EffectiveOp(h)) + ":" + h.value
  {
    var none, no: seq<string>, noHeader: seq<HeaderMatch> := "", [], [];
    assert [c][1..] == no && [h][1..] == noHeader;
    assert NetworkKeys(no) == none && HostKeys(lib.lower, no) == none && HeaderKeys(lib.lower, noHeader) == none;
    assert "|" + c + none == "|" + c;
  }

  /** Single conditions are told apart. */
  lemma SingleConditions(lib: Lib, c: string, d: string, h: HeaderMatch, g: HeaderMatch)
    ensures NetworkKeys([c]) == NetworkKeys([d]) ==> c == d
    ensures HostKeys(lib.lower, [c]) == HostKeys(lib.lower, [d]) ==> lib.lower(c) == lib.lower(d)
    ensures HeaderKeys(lib.lower, [h]) == HeaderKeys(lib.lower, [g]) && h.name == g.name && h.op == g.op != Unset ==>
              h.value == g.value
  {
    KeysOfOne(lib, c, h);
    KeysOfOne(lib, d, g);
    if NetworkKeys([c]) == NetworkKeys([d]) { CancelFront("|", c, d); }
    if HostKeys(lib.lower, [c]) == HostKeys(lib.lower, [d]) { CancelFront("|", lib.lower(c), lib.lower(d)); }
    if HeaderKeys(lib.lower, [h]) == HeaderKeys(lib.lower, [g]) && h.name == g.name && h.op == g.op != Unset {
      var front := "|" + lib.lower(h.name) + "=" + OpText(EffectiveOp(h)) + ":";
      CancelFront(front, h.value, g.value);
    }
  }

  /** But not only those: a '|' in a regex can read like a host condition. */
  lemma DifferentRulesMayCollide(lib: Lib, r: Rule) returns (q: Rule)
    requires lib.lower("b") == "b" && r.regex == "a|b" && r.headers == [] && r.hosts == []
    ensures q.regex == "a" && q.hosts == ["b"] && lib.dedupKey(q) == lib.dedupKey(r)
  {
    q := r.(regex := "a", hosts := ["b"]);
    assert IsKey(lib, r) && IsKey(lib, q);
    assert HostKeys(lib.lower, q.hosts) == "|b";
    var networks := NetworkKeys(r.clientCIDRs);
    assert "a" + ("" + ("|b" + networks)) == "a|b" + ("" + ("" + networks));
  }
}
