/** One request through the proxy: routing decides, `rewrite` buffers the body, the transport sends. */
module Proxy {
  import opened Foundations
  import opened ConfigModel
  import opened Routing
  import opened RouteIndexing
  import opened Routers
  import opened Failover

  /** The routed request as the transport sees it, on values. */
  function TargetView(d: Decision): UrlView {
    UrlView(d.target.scheme, d.target.host, d.target.path, d.target.rawQuery)
  }

  function PrimaryOf(d: Decision): Failover.Route {
    Failover.Route(d.upstream, TargetView(d), d.timeoutMs)
  }

  function HostView(u: Url): UrlView {
    UrlView(u.scheme, u.host, [], u.rawQuery)
  }

  function SecondOf(d: Decision): Option<Failover.Route> {
    if d.fallback.None? then None
    else Some(Failover.Route(d.fallback.value.name, HostView(d.fallback.value.url), d.fallback.value.timeoutMs))
  }

  /** Hands a decision of the router over to the transport. */
  method Hand(d: Decision) returns (t: RoutedDecision)
    ensures fresh(t.target) && (t.fallback.Some? ==> fresh(t.fallback.value.url))
    ensures PrimaryRoute(t) == PrimaryOf(d) && FallbackRoute(t) == SecondOf(d)
  {
    var target := new HttpUrl(TargetView(d));
    var fallback := None;
    if d.fallback.Some? {
      var url := new HttpUrl(HostView(d.fallback.value.url));
      fallback := Some(FallbackTarget(d.fallback.value.name, url, d.fallback.value.timeoutMs));
    }
    t := RoutedDecision(d.upstream, target, d.timeoutMs, fallback);
  }

  datatype Answer = NotFound | Proxied(result: Result<Response, GoError>)

  /** The client's request: routing looks at `routed`; headers and body go out. */
  datatype Incoming = Incoming(routed: Request, header: map<string, seq<string>>, body: BodyReader)

  /** The client's request once its body is read; `whole` says that reading it did not fail. */
  datatype Buffered = Buffered(
    httpMethod: string, header: map<string, seq<string>>, body: Bytes, whole: bool, ceiling: int)

  /** The request that the transport gets, on values. */
  function Asked(c: Buffered, d: Decision): Plain {
    Plain(c.httpMethod, TargetView(d), c.header, c.body, if c.whole then Some(c.body) else None, Some(c.ceiling))
  }

  /** `out` is the client's request, sent to this host with the path and query decided, within the
      ceiling and within the timeout counted from `now`. */
  predicate IsForwarded(out: Outbound, c: Buffered, d: Decision, scheme: string, host: string, now: int, timeout: int) {
    && out.httpMethod == c.httpMethod && out.header == c.header && out.body == c.body && out.host == ""
    && out.url == UrlView(scheme, host, d.target.path, d.target.rawQuery)
    && IsBounded(out.deadline, Some(c.ceiling), now, timeout)
  }

  /** One send to the upstream decided on, if limiter and gate admit it and its body is ready. */
  ghost predicate ToUpstream(w: World, h: History, c: Buffered, d: Decision, p: seq<Outbound>) {
    && |p| == (if Admitted(w, h, d.upstream) && BodyReady(w, h, Asked(c, d), PrimaryOf(d)) then 1 else 0)
    && forall out | out in p ::
         IsForwarded(out, c, d, d.target.scheme, d.target.host, w.now(Gated(h, d.upstream)), d.timeoutMs)
  }

  /** The documented conditions for a second attempt: a failure in time, a fallback, an idempotent
      method, and a body that was read whole. */
  predicate MayFailOver(w: World, one: Outcome, c: Buffered, d: Decision) {
    && one.result.Err? && !w.done(one.history) && d.fallback.Some? && c.whole
    && c.httpMethod in {"GET", "HEAD", "PUT", "DELETE", "OPTIONS", "TRACE"}
  }

  /** One send to its fallback, if that failed and the documented conditions hold. */
  ghost predicate ToFallback(w: World, h: History, c: Buffered, d: Decision, f: seq<Outbound>) {
    var q := Asked(c, d);
    var one := Failover.First(w, h, q, PrimaryOf(d));
    if !MayFailOver(w, one, c, d) then f == []
    else
      var b := d.fallback.value;
      && |f| == (if Admitted(w, one.history, b.name) && BodyReady(w, one.history, q, SecondOf(d).value) then 1 else 0)
      && forall out | out in f ::
           IsForwarded(out, c, d, b.url.scheme, b.url.host, w.now(Gated(one.history, b.name)), b.timeoutMs)
  }

  /** The sends after `h`, and that the result is the last attempt's answer. */
  ghost predicate Relays(
    w: World, h: History, end: History, c: Buffered, d: Decision, result: Result<Response, GoError>)
  {
    && WithinDeadline(end, h, c.ceiling)
    && (exists p, f :: TallyOf(end).sends == TallyOf(h).sends + p + f
                       && ToUpstream(w, h, c, d, p) && ToFallback(w, h, c, d, f))
    && var last := LastTry(w, h, Asked(c, d), PrimaryOf(d), SecondOf(d));
       IsAnswer(w, last.before, end, Asked(c, d), last.route, result)
  }

  lemma RoundTripRelays(w: World, h: History, c: Buffered, d: Decision)
    requires Numbered(h)
    ensures var o := RoundTripOutcome(w, h, Asked(c, d), PrimaryOf(d), SecondOf(d));
            Relays(w, h, o.history, c, d, o.result)
  {
    var q := Asked(c, d);
    var p, f := RoundTripSends(w, h, q, PrimaryOf(d), SecondOf(d));
    assert ToUpstream(w, h, c, d, p);
    assert ToFallback(w, h, c, d, f);
    RoundTripWithinDeadline(w, h, q, PrimaryOf(d), SecondOf(d));
    ResultIsLastAnswer(w, h, q, PrimaryOf(d), SecondOf(d));
  }

  class L7Proxy {
    const router: Router
    const transport: AttemptingTransport

    constructor (router: Router, transport: AttemptingTransport)
      ensures this.router == router && this.transport == transport
    {
      this.router, this.transport := router, transport;
    }

    /** `rewrite` and the round trip. The body read is the whole body, unless reading fails. */
    method Forward(client: Incoming, d: Decision, ceiling: int, readOk: bool, n: nat)
      returns (result: Result<Response, GoError>, ghost body: Bytes)
      requires Numbered(transport.trace)
      modifies transport, client.body
      ensures Numbered(transport.trace)
      ensures body <= old(client.body.rest) && (readOk ==> body == old(client.body.rest))
      ensures Relays(transport.world, old(transport.trace), transport.trace,
                     Buffered(client.routed.httpMethod, client.header, body, readOk, ceiling), d, result)
    {
      var reader, buffer := BufferBody(client.body, readOk, n);
      body := reader.rest;
      var routed := Hand(d);
      var req := OutRequest(client.routed.httpMethod, routed.target, "", client.header, reader, buffer,
                            Some(ceiling), Some(routed));
      ghost var buffered := Buffered(client.routed.httpMethod, client.header, body, readOk, ceiling);
      assert PlainOf(req) == Asked(buffered, d);
      RoundTripRelays(transport.world, transport.trace, buffered, d);
      result := transport.RoundTrip(req);
    }

    /** The decision is the documented one for the config in use when the request came, whatever is
        published meanwhile. A request without a decision is not sent at all; any other is relayed. */
    method Serve(lib: Lib, client: Incoming, reloads: Reloads, ceiling: int, readOk: bool, n: nat)
      returns (a: Answer, ghost d: Result<Decision, RouteError>, ghost body: Bytes)
      requires router.Valid() && Numbered(transport.trace)
      modifies router, transport, client.body
      ensures Numbered(transport.trace) && IsDecision(lib, old(router.index.cfg), client.routed, d)
      ensures d.Err? ==> a.NotFound? && transport.trace == old(transport.trace)
      ensures body <= old(client.body.rest) && (readOk ==> body == old(client.body.rest))
      ensures d.Ok? ==>
                && a.Proxied?
                && Relays(transport.world, old(transport.trace), transport.trace,
                          Buffered(client.routed.httpMethod, client.header, body, readOk, ceiling), d.value, a.result)
    {
      var decision := router.DecideRoute(lib, client.routed, reloads);
      d, body := decision, client.body.rest;
      if decision.Err? {
        a := NotFound;
      } else {
        var result;
        result, body := Forward(client, decision.value, ceiling, readOk, n);
        a := Proxied(result);
      }
    }
  }
}
