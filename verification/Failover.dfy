/** The attempting transport: one primary attempt, at most one fallback attempt, and the deadline
    of each attempt. What the limiter, the gate, the clock and the upstreams answer is arbitrary. */
module Failover {
  import opened Foundations

  // ---- Requests and what is sent ----

  datatype UrlView = UrlView(scheme: string, host: string, path: Bytes, rawQuery: string)

  /** A URL object, shared by reference between decisions, requests and the index. */
  class HttpUrl {
    var scheme: string
    var host: string
    var path: Bytes
    var rawQuery: string

    function View(): UrlView
      reads this
    {
      UrlView(scheme, host, path, rawQuery)
    }

    constructor (v: UrlView)
      ensures View() == v
    {
      scheme, host, path, rawQuery := v.scheme, v.host, v.path, v.rawQuery;
    }
  }

  /** What is left of `rest` after reading `n` bytes. */
  function Unread(rest: Bytes, n: nat): Bytes {
    if n <= |rest| then rest[n..] else []
  }

  /** A one-shot body: what was read from it is gone. */
  class BodyReader {
    var rest: Bytes

    constructor (rest: Bytes)
      ensures this.rest == rest
    {
      this.rest := rest;
    }

    method Read(n: nat)
      modifies this
      ensures rest == Unread(old(rest), n)
    {
      rest := if n <= |rest| then rest[n..] else [];
    }
  }

  datatype FallbackTarget = FallbackTarget(name: string, url: HttpUrl, timeout: int)
  datatype RoutedDecision = RoutedDecision(
    upstream: string, target: HttpUrl, timeout: int, fallback: Option<FallbackTarget>)

  /** `deadline` is that of the request's context; `buffer` holds the bytes that GetBody makes a new
      reader of, when it is set. */
  datatype OutRequest = OutRequest(
    httpMethod: string, url: HttpUrl, host: string, header: map<string, seq<string>>, body: BodyReader,
    buffer: Option<Bytes>, deadline: Option<int>, decision: Option<RoutedDecision>)

  datatype Outbound = Outbound(
    httpMethod: string, url: UrlView, host: string, header: map<string, seq<string>>, body: Bytes,
    deadline: Option<int>)

  /** How errors.Is and errors.As answer about an error. */
  datatype GoError = GoError(unavailable: bool, deadline: bool, canceled: bool, maxBytes: bool)

  const ERR_UPSTREAM_UNAVAILABLE := GoError(true, false, false, false)

  /** `cancel` is the deadline that closing the body releases. */
  datatype Response = Response(status: int, cancel: Option<int>)

  // ---- The environment ----

  datatype Event =
    | LimiterAsked(name: string, allowed: bool)
    | GateAsked(name: string, allowed: bool)
    | DeadlineArmed(id: int, at: int)
    | DeadlineReleased(id: int)
    | BodyReplayed(ok: bool)
    | Sent(out: Outbound, ok: bool)
    | Recorded(name: string, ok: bool)
    | BodyClosed

  datatype History = Start | Then(before: History, last: Event) {
    function Length(): nat {
      if Start? then 0 else 1 + before.Length()
    }
  }

  /** Every answer may depend on all that happened before. */
  datatype RawWorld = RawWorld(
    limiter: (History, string) -> bool,
    gate: (History, string) -> bool,
    now: History -> int,
    done: History -> bool,                              // the request's context has ended
    replay: History -> Option<GoError>,                 // the error of GetBody
    base: (History, Outbound) -> Result<int, GoError>,  // the base transport
    taken: (History, Outbound) -> nat)                  // how much of the body it reads, failed or not

  /** Only this transport makes `errUpstreamUnavailable`. */
  ghost predicate WorldFacts(w: RawWorld) {
    && (forall h :: w.replay(h).Some? ==> !w.replay(h).value.unavailable)
    && (forall h, out :: w.base(h, out).Err? ==> !w.base(h, out).error.unavailable)
  }

  type World = w: RawWorld | WorldFacts(w) ghost witness
    RawWorld((h, n) => true, (h, n) => true, h => 0, h => false, h => None, (h, out) => Ok(200), (h, out) => 0)

  // ---- Specification: how an attempt extends the history ----

  function Min(limit: Option<int>, at: int): int {
    if limit.Some? && limit.value < at then limit.value else at
  }

  /** The request as sent to `target`: only scheme, host and deadline are replaced. */
  function OutboundFor(httpMethod: string, url: UrlView, header: map<string, seq<string>>, body: Bytes,
                       target: UrlView, deadline: Option<int>): Outbound {
    Outbound(httpMethod, url.(scheme := target.scheme, host := target.host), "", header, body, deadline)
  }

  /** A request with its URL and the unread rest of its body. */
  datatype Plain = Plain(
    httpMethod: string, url: UrlView, header: map<string, seq<string>>, rest: Bytes,
    buffer: Option<Bytes>, deadline: Option<int>)

  /** The body that a send takes: a new reader of the buffer, or else what is left of the only one. */
  function BodyFor(q: Plain): Bytes {
    if q.buffer.Some? then q.buffer.value else q.rest
  }

  function OutFor(q: Plain, target: UrlView, deadline: Option<int>): Outbound {
    OutboundFor(q.httpMethod, q.url, q.header, BodyFor(q), target, deadline)
  }

  function Armed(w: World, h: History, deadline: Option<int>, timeout: int): History {
    if timeout > 0 then Then(h, DeadlineArmed(h.Length(), Min(deadline, w.now(h) + timeout))) else h
  }

  function AttemptDeadline(w: World, h: History, deadline: Option<int>, timeout: int): Option<int> {
    if timeout > 0 then Some(Min(deadline, w.now(h) + timeout)) else deadline
  }

  function Cancelled(h: History, id: Option<int>): History {
    if id.Some? then Then(h, DeadlineReleased(id.value)) else h
  }

  /** `rest` is what is left of the request's own body. */
  datatype Outcome = Outcome(history: History, rest: Bytes, result: Result<Response, GoError>)

  /** The base transport's answer; a failure releases the deadline. */
  function Delivered(w: World, h: History, q: Plain, out: Outbound, cancel: Option<int>): Outcome {
    var rest := if q.buffer.Some? then q.rest else Unread(q.rest, w.taken(h, out));
    match w.base(h, out)
    case Ok(status) => Outcome(Then(h, Sent(out, true)), rest, Ok(Response(status, cancel)))
    case Err(e) => Outcome(Cancelled(Then(h, Sent(out, false)), cancel), rest, Err(e))
  }

  function SendOutcome(w: World, h: History, q: Plain, target: UrlView, timeout: int): Outcome {
    var armed := Armed(w, h, q.deadline, timeout);
    var cancel := if timeout > 0 then Some(h.Length()) else None;
    var out := OutFor(q, target, AttemptDeadline(w, h, q.deadline, timeout));
    if q.buffer.None? then Delivered(w, armed, q, out, cancel)
    else if w.replay(armed).None? then Delivered(w, Then(armed, BodyReplayed(true)), q, out, cancel)
    else Outcome(Cancelled(Then(armed, BodyReplayed(false)), cancel), q.rest, Err(w.replay(armed).value))
  }

  function AttemptOutcome(w: World, h: History, q: Plain, name: string, target: UrlView, timeout: int): Outcome {
    var limited := Then(h, LimiterAsked(name, w.limiter(h, name)));
    if !w.limiter(h, name) then Outcome(limited, q.rest, Err(ERR_UPSTREAM_UNAVAILABLE))
    else
      var gated := Then(limited, GateAsked(name, w.gate(limited, name)));
      if !w.gate(limited, name) then Outcome(gated, q.rest, Err(ERR_UPSTREAM_UNAVAILABLE))
      else
        var sent := SendOutcome(w, gated, q, target, timeout);
        Outcome(Then(sent.history, Recorded(name, sent.result.Ok?)), sent.rest, sent.result)
  }

  /** GET, HEAD, PUT, DELETE, OPTIONS and TRACE: section 9.2.2 of RFC 9110. */
  predicate Idempotent(m: string) {
    m == "GET" || m == "HEAD" || m == "PUT" || m == "DELETE" || m == "OPTIONS" || m == "TRACE"
  }

  /** A decision with its URLs read. */
  datatype Route = Route(name: string, target: UrlView, timeout: int)

  predicate FailsOver(w: World, primary: Outcome, q: Plain, hasFallback: bool) {
    primary.result.Err? && !w.done(primary.history) && hasFallback && Idempotent(q.httpMethod) && q.buffer.Some?
  }

  function RoundTripOutcome(w: World, h: History, q: Plain, primary: Route, fallback: Option<Route>): Outcome {
    var first := AttemptOutcome(w, h, q, primary.name, primary.target, primary.timeout);
    if !FailsOver(w, first, q, fallback.Some?) then first
    else
      var second := fallback.value;
      AttemptOutcome(w, first.history, q.(rest := first.rest), second.name, second.target, second.timeout)
  }

  // ---- The transport ----

  function PlainOf(req: OutRequest): Plain
    reads req.url, req.body
  {
    Plain(req.httpMethod, req.url.View(), req.header, req.body.rest, req.buffer, req.deadline)
  }

  function PrimaryRoute(d: RoutedDecision): Route
    reads d.target
  {
    Route(d.upstream, d.target.View(), d.timeout)
  }

  function FallbackRoute(d: RoutedDecision): Option<Route>
    reads if d.fallback.Some? then {d.fallback.value.url} else {}
  {
    if d.fallback.None? then None
    else Some(Route(d.fallback.value.name, d.fallback.value.url.View(), d.fallback.value.timeout))
  }

  predicate CanFailover(req: OutRequest, d: RoutedDecision) {
    d.fallback.Some? && Idempotent(req.httpMethod) && req.buffer.Some?
  }

  /** `rewrite` reads the client's body into memory before anything is sent. `n` is how far it gets
      when reading fails: then there is no GetBody, and so no second attempt. */
  method BufferBody(incoming: BodyReader, readOk: bool, n: nat) returns (body: BodyReader, buffer: Option<Bytes>)
    modifies incoming
    ensures fresh(body) && buffer.Some? == readOk
    ensures body.rest + incoming.rest == old(incoming.rest)
    ensures if readOk || n > |old(incoming.rest)| then incoming.rest == [] else |body.rest| == n
    ensures readOk ==> body.rest == old(incoming.rest) && buffer == Some(old(incoming.rest))
  {
    var all := incoming.rest;
    var got := if readOk || n > |all| then all else all[..n];
    incoming.Read(|got|);
    body := new BodyReader(got);
    buffer := if readOk then Some(got) else None;
  }

  /** Only the trace and the request's body change: the URLs of requests, decisions and indexes are
      never written. */
  class AttemptingTransport {
    const world: World
    var trace: History

    constructor (world: World)
      ensures this.world == world && trace == Start
    {
      this.world, trace := world, Start;
    }

    method Cancel(id: Option<int>)
      modifies this
      ensures trace == Cancelled(old(trace), id)
    {
      if id.Some? { trace := Then(trace, DeadlineReleased(id.value)); }
    }

    method Send(req: OutRequest, target: HttpUrl, timeout: int) returns (r: Result<Response, GoError>)
      modifies this, req.body
      ensures Outcome(trace, req.body.rest, r)
           == SendOutcome(world, old(trace), old(PlainOf(req)), target.View(), timeout)
    {
      var deadline, cancel := req.deadline, None;
      if timeout > 0 {
        var at := Min(req.deadline, world.now(trace) + timeout);
        deadline, cancel := Some(at), Some(trace.Length());
        trace := Then(trace, DeadlineArmed(trace.Length(), at));
      }
      var u := new HttpUrl(req.url.View());
      u.scheme := target.scheme;
      u.host := target.host;
      var body := req.body;  // the clone shares it
      if req.buffer.Some? {
        var err := world.replay(trace);
        trace := Then(trace, BodyReplayed(err.None?));
        if err.Some? {
          Cancel(cancel);
          return Err(err.value);
        }
        body := new BodyReader(req.buffer.value);
      }
      var out := Outbound(req.httpMethod, u.View(), "", req.header, body.rest, deadline);
      var reply := world.base(trace, out);
      body.Read(world.taken(trace, out));
      trace := Then(trace, Sent(out, reply.Ok?));
      if reply.Err? {
        Cancel(cancel);
        return Err(reply.error);
      }
      return Ok(Response(reply.value, cancel));
    }

    method Attempt(req: OutRequest, name: string, target: HttpUrl, timeout: int) returns (r: Result<Response, GoError>)
      modifies this, req.body
      ensures Outcome(trace, req.body.rest, r)
           == AttemptOutcome(world, old(trace), old(PlainOf(req)), name, target.View(), timeout)
    {
      var allowed := world.limiter(trace, name);
      trace := Then(trace, LimiterAsked(name, allowed));
      if !allowed { return Err(ERR_UPSTREAM_UNAVAILABLE); }
      allowed := world.gate(trace, name);
      trace := Then(trace, GateAsked(name, allowed));
      if !allowed { return Err(ERR_UPSTREAM_UNAVAILABLE); }
      r := Send(req, target, timeout);
      trace := Then(trace, Recorded(name, r.Ok?));
    }

    method RoundTrip(req: OutRequest) returns (r: Result<Response, GoError>)
      modifies this, req.body
      ensures req.decision.Some? ==>
                Outcome(trace, req.body.rest, r)
                == RoundTripOutcome(world, old(trace), old(PlainOf(req)), PrimaryRoute(req.decision.value),
                                    FallbackRoute(req.decision.value))
      ensures req.decision.None? ==> trace == Then(old(trace), Sent(old(AsIs(req)), r.Ok?))
      ensures req.decision.None? ==>
                var reply := world.base(old(trace), old(AsIs(req)));
                if reply.Ok? then r == Ok(Response(reply.value, None)) else r == Err(reply.error)
      ensures Numbered(old(trace)) ==> Numbered(trace)
    {
      if req.decision.None? {
        var out := AsIs(req);
        var reply := world.base(trace, out);
        req.body.Read(world.taken(trace, out));
        trace := Then(trace, Sent(out, reply.Ok?));
        return if reply.Ok? then Ok(Response(reply.value, None)) else Err(reply.error);
      }
      var d := req.decision.value;
      if Numbered(trace) { NoDeadlineLeaks(world, trace, PlainOf(req), PrimaryRoute(d), FallbackRoute(d)); }
      r := Attempt(req, d.upstream, d.target, d.timeout);
      if r.Ok? { return; }
      if world.done(trace) || !CanFailover(req, d) { return; }
      r := Attempt(req, d.fallback.value.name, d.fallback.value.url, d.fallback.value.timeout);
    }

    /** `cancelOnClose.Close`. */
    method Close(resp: Response)
      modifies this
      ensures trace == Cancelled(Then(old(trace), BodyClosed), resp.cancel)
      ensures Numbered(old(trace)) ==> Numbered(trace)
    {
      trace := Then(trace, BodyClosed);
      Cancel(resp.cancel);
    }
  }

  function AsIs(req: OutRequest): Outbound
    reads req.url, req.body
  {
    Outbound(req.httpMethod, req.url.View(), req.host, req.header, req.body.rest, req.deadline)
  }

  /** The status that the error handler answers with; none when the client went away. */
  function StatusFor(e: GoError): Option<int> {
    if e.unavailable then Some(503)
    else if e.deadline then Some(504)
    else if e.canceled then None
    else if e.maxBytes then Some(413)
    else Some(502)
  }

  // ---- What a history says ----

  /** What was sent, the upstreams whose outcome the gate was told, the upstreams that limiter and
      gate admitted, all in order, and the deadlines armed and not yet released. */
  datatype Tally = Tally(sends: seq<Outbound>, recorded: seq<Report>, admitted: seq<string>, live: set<int>)

  datatype Report = Report(name: string, ok: bool)

  function After(t: Tally, e: Event): Tally {
    match e
    case Sent(out, _) => t.(sends := t.sends + [out])
    case Recorded(name, ok) => t.(recorded := t.recorded + [Report(name, ok)])
    case GateAsked(name, allowed) => if allowed then t.(admitted := t.admitted + [name]) else t
    case DeadlineArmed(id, _) => t.(live := t.live + {id})
    case DeadlineReleased(id) => t.(live := t.live - {id})
    case _ => t
  }

  function TallyOf(h: History): Tally {
    match h
    case Start => Tally([], [], [], {})
    case Then(before, last) => After(TallyOf(before), last)
  }

  /** Deadlines are named by their position, hence apart. */
  predicate Numbered(h: History) {
    match h
    case Start => true
    case Then(before, last) => Numbered(before) && (last.DeadlineArmed? ==> last.id == before.Length())
  }

  lemma {:induction false} LiveIsOld(h: History)
    requires Numbered(h)
    ensures forall id | id in TallyOf(h).live :: id < h.Length()
  {
    if h.Then? { LiveIsOld(h.before); }
  }

  /** A response keeps its own deadline alive. */
  function Kept(live: set<int>, r: Result<Response, GoError>): set<int> {
    if r.Ok? && r.value.cancel.Some? then live + {r.value.cancel.value} else live
  }

  function Without(live: set<int>, id: Option<int>): set<int> {
    if id.Some? then live - {id.value} else live
  }

  /** A request as `rewrite` leaves it: nothing of the body is read, and GetBody gives the body. */
  predicate Unsent(q: Plain) {
    q.buffer.Some? ==> q.buffer.value == q.rest
  }

  /** A send to `target` within the request's deadline that is otherwise the unsent request `q`
      itself, with the whole of its body. */
  predicate IsSendTo(out: Outbound, q: Plain, target: UrlView) {
    && out.httpMethod == q.httpMethod && out.header == q.header && out.body == q.rest && out.host == ""
    && out.url == UrlView(target.scheme, target.host, q.url.path, q.url.rawQuery)
    && (q.deadline.Some? ==> out.deadline.Some? && out.deadline.value <= q.deadline.value)
  }

  /** `deadline` is the earlier of the request's own and the end of the timeout counted from `now`. */
  predicate IsBounded(deadline: Option<int>, own: Option<int>, now: int, timeout: int) {
    if timeout <= 0 then deadline == own
    else
      && deadline.Some? && deadline.value <= now + timeout && (own.Some? ==> deadline.value <= own.value)
      && (deadline == Some(now + timeout) || deadline == own)
  }

  /** What `send` puts on the wire: nothing if the body cannot be replayed. */
  function Wire(w: World, h: History, q: Plain, target: UrlView, timeout: int): seq<Outbound> {
    var armed := Armed(w, h, q.deadline, timeout);
    if q.buffer.Some? && w.replay(armed).Some? then []
    else [OutFor(q, target, AttemptDeadline(w, h, q.deadline, timeout))]
  }

  lemma DeliveredEffects(w: World, h: History, q: Plain, out: Outbound, cancel: Option<int>)
    requires Numbered(h)
    ensures var o, t := Delivered(w, h, q, out, cancel), TallyOf(h);
            && Numbered(o.history)
            && TallyOf(o.history)
               == t.(sends := t.sends + [out], live := if o.result.Ok? then t.live else Without(t.live, cancel))
            && (o.result.Ok? ==> o.result.value.cancel == cancel)
  {
  }

  /** One send: at most one message, and its deadline survives only in the hands of a response. */
  lemma SendEffects(w: World, h: History, q: Plain, target: UrlView, timeout: int)
    requires Numbered(h)
    ensures var o, t := SendOutcome(w, h, q, target, timeout), TallyOf(h);
            && Numbered(o.history)
            && TallyOf(o.history)
               == t.(sends := t.sends + Wire(w, h, q, target, timeout), live := Kept(t.live, o.result))
  {
    LiveIsOld(h);
    var live, id := TallyOf(h).live, h.Length();
    assert live + {id} - {id} == live;
    var armed := Armed(w, h, q.deadline, timeout);
    var cancel := if timeout > 0 then Some(h.Length()) else None;
    assert Numbered(armed) && TallyOf(armed) == TallyOf(h).(live := if timeout > 0 then live + {id} else live);
    var ready := if q.buffer.Some? then Then(armed, BodyReplayed(w.replay(armed).None?)) else armed;
    assert Numbered(ready) && TallyOf(ready) == TallyOf(armed);
    if q.buffer.None? || w.replay(armed).None? {
      var out := OutFor(q, target, AttemptDeadline(w, h, q.deadline, timeout));
      DeliveredEffects(w, ready, q, out, cancel);
      assert SendOutcome(w, h, q, target, timeout) == Delivered(w, ready, q, out, cancel);
    }
  }

  predicate Admitted(w: World, h: History, name: string) {
    w.limiter(h, name) && w.gate(Then(h, LimiterAsked(name, true)), name)
  }

  predicate EndsInRefusal(h: History) {
    h.Then? && (h.last.LimiterAsked? || h.last.GateAsked?) && !h.last.allowed
  }

  /** The history in which an admitted attempt sends. */
  function Gated(h: History, name: string): History {
    Then(Then(h, LimiterAsked(name, true)), GateAsked(name, true))
  }

  /** What an attempt sends. */
  function AttemptWire(w: World, h: History, q: Plain, r: Route): seq<Outbound> {
    if Admitted(w, h, r.name) then Wire(w, Gated(h, r.name), q, r.target, r.timeout) else []
  }

  /** One attempt: the outcome is recorded exactly when it was admitted. */
  lemma AttemptEffects(w: World, h: History, q: Plain, r: Route)
    requires Numbered(h)
    ensures var o, t := AttemptOutcome(w, h, q, r.name, r.target, r.timeout), TallyOf(h);
            && Numbered(o.history)
            && TallyOf(o.history) == Tally(
                 t.sends + AttemptWire(w, h, q, r),
                 t.recorded + (if Admitted(w, h, r.name) then [Report(r.name, o.result.Ok?)] else []),
                 t.admitted + (if Admitted(w, h, r.name) then [r.name] else []),
                 Kept(t.live, o.result))
  {
    var o, t := AttemptOutcome(w, h, q, r.name, r.target, r.timeout), TallyOf(h);
    if Admitted(w, h, r.name) {
      SendEffects(w, Gated(h, r.name), q, r.target, r.timeout);
      assert TallyOf(Gated(h, r.name)) == t.(admitted := t.admitted + [r.name]);
      assert o.history.last == Recorded(r.name, o.result.Ok?);
    } else {
      assert TallyOf(o.history) == t;
    }
  }

  // ---- Main results ----

  /** What an attempt sends is the request up to scheme, host and deadline; it has both the
      attempt's and the request's time limit. An attempt may take the request's own reader as an
      earlier one left it, unless that one failed and is followed up: then the body is buffered. */
  lemma WireIsSendTo(w: World, h: History, q: Plain, r: Route, rest: Bytes)
    requires Unsent(q) && (rest == q.rest || q.buffer.Some?)
    ensures |AttemptWire(w, h, q.(rest := rest), r)| <= 1
    ensures forall out | out in AttemptWire(w, h, q.(rest := rest), r) ::
              IsSendTo(out, q, r.target) && IsBounded(out.deadline, q.deadline, w.now(Gated(h, r.name)), r.timeout)
  {
  }

  /** The body could be replayed for an attempt that sends at `armed`. */
  predicate BodyReady(w: World, h: History, q: Plain, r: Route) {
    q.buffer.None? || w.replay(Armed(w, Gated(h, r.name), q.deadline, r.timeout)).None?
  }

  function First(w: World, h: History, q: Plain, primary: Route): Outcome {
    AttemptOutcome(w, h, q, primary.name, primary.target, primary.timeout)
  }

  /** The documented conditions for a second attempt. */
  predicate GoesOn(w: World, one: Outcome, q: Plain, fallback: Option<Route>) {
    && one.result.Err? && !w.done(one.history) && fallback.Some? && q.buffer.Some?
    && q.httpMethod in {"GET", "HEAD", "PUT", "DELETE", "OPTIONS", "TRACE"}
  }

  /** A round trip sends nothing, to the primary, to the fallback, or to the primary and then to the
      fallback, each time with the whole body, however much of it the primary has read. The fallback
      is used exactly when the primary was refused or failed, the context is live, a fallback is
      configured and admitted, the method is idempotent and the body can be sent again. */
  lemma RoundTripSends(w: World, h: History, q: Plain, primary: Route, fallback: Option<Route>)
    returns (p: seq<Outbound>, f: seq<Outbound>)
    requires Numbered(h) && Unsent(q)
    ensures TallyOf(RoundTripOutcome(w, h, q, primary, fallback).history).sends == TallyOf(h).sends + p + f
    ensures |p| <= 1 && forall out | out in p ::
              && IsSendTo(out, q, primary.target)
              && IsBounded(out.deadline, q.deadline, w.now(Gated(h, primary.name)), primary.timeout)
    ensures |f| <= 1 && forall out | out in f ::
              && fallback.Some? && IsSendTo(out, q, fallback.value.target)
              && IsBounded(out.deadline, q.deadline, w.now(Gated(First(w, h, q, primary).history, fallback.value.name)),
                           fallback.value.timeout)
    ensures p != [] <==> Admitted(w, h, primary.name) && BodyReady(w, h, q, primary)
    ensures f != [] <==>
              var one := First(w, h, q, primary);
              && GoesOn(w, one, q, fallback) && Admitted(w, one.history, fallback.value.name)
              && BodyReady(w, one.history, q, fallback.value)
  {
    var one := First(w, h, q, primary);
    AttemptEffects(w, h, q, primary);
    WireIsSendTo(w, h, q, primary, q.rest);
    p, f := AttemptWire(w, h, q, primary), [];
    if FailsOver(w, one, q, fallback.Some?) {
      var again := q.(rest := one.rest);
      AttemptEffects(w, one.history, again, fallback.value);
      WireIsSendTo(w, one.history, q, fallback.value, one.rest);
      f := AttemptWire(w, one.history, again, fallback.value);
    }
  }

  function NamesOf(reports: seq<Report>): seq<string> {
    seq(|reports|, i requires 0 <= i < |reports| => reports[i].name)
  }

  /** The gate is told the outcome of every admitted attempt, once, and of no refused one. */
  lemma EveryAdmissionIsRecorded(w: World, h: History, q: Plain, primary: Route, fallback: Option<Route>)
    returns (first: seq<Report>, second: seq<Report>)
    requires Numbered(h)
    ensures |first| <= 1 && |second| <= 1
    ensures var o, t := TallyOf(RoundTripOutcome(w, h, q, primary, fallback).history), TallyOf(h);
            o.recorded == t.recorded + first + second && o.admitted == t.admitted + NamesOf(first) + NamesOf(second)
    ensures first != [] ==> first[0] == Report(primary.name, First(w, h, q, primary).result.Ok?)
    ensures second != [] ==>
              && fallback.Some?
              && second[0] == Report(fallback.value.name, RoundTripOutcome(w, h, q, primary, fallback).result.Ok?)
  {
    var one := First(w, h, q, primary);
    AttemptEffects(w, h, q, primary);
    first, second := if Admitted(w, h, primary.name) then [Report(primary.name, one.result.Ok?)] else [], [];
    if FailsOver(w, one, q, fallback.Some?) {
      AttemptEffects(w, one.history, q.(rest := one.rest), fallback.value);
      if Admitted(w, one.history, fallback.value.name) {
        second := [Report(fallback.value.name, RoundTripOutcome(w, h, q, primary, fallback).result.Ok?)];
      }
    }
  }

  predicate Unavailable(o: Outcome) {
    o.result.Err? && StatusFor(o.result.error) == Some(503)
  }

  /** The attempt that decides the answer, with what happened before it. */
  datatype Try = Try(before: History, route: Route)

  /** The fallback's attempt when the documented conditions hold, or else the primary's. */
  function LastTry(w: World, h: History, q: Plain, primary: Route, fallback: Option<Route>): Try {
    var one := First(w, h, q, primary);
    if GoesOn(w, one, q, fallback) then Try(one.history, fallback.value) else Try(h, primary)
  }

  /** A send, with what happened before it. */
  datatype Sending = Sending(before: History, out: Outbound)

  /** The last send after `from`. */
  function LastSend(h: History, from: History): Option<Sending> {
    if h == from || h.Start? then None
    else if h.last.Sent? then Some(Sending(h.before, h.last.out))
    else LastSend(h.before, from)
  }

  /** What an attempt returns: a refusal, the error of the replay, or what the upstream answered to
      what it was sent. */
  ghost predicate IsAnswer(
    w: World, before: History, end: History, q: Plain, r: Route, result: Result<Response, GoError>)
  {
    if !Admitted(w, before, r.name) then result == Err(ERR_UPSTREAM_UNAVAILABLE)
    else if !BodyReady(w, before, q, r) then
      result == Err(w.replay(Armed(w, Gated(before, r.name), q.deadline, r.timeout)).value)
    else
      var last := LastSend(end, before);
      && last.Some? && last.value.out.url.scheme == r.target.scheme && last.value.out.url.host == r.target.host
      && match w.base(last.value.before, last.value.out)
         case Ok(status) => result.Ok? && result.value.status == status
         case Err(e) => result == Err(e)
  }

  lemma LaterEvent(h: History, e: Event, from: History)
    requires h.Length() >= from.Length()
    ensures Then(h, e).Length() > from.Length()
    ensures LastSend(Then(h, e), from) == if e.Sent? then Some(Sending(h, e.out)) else LastSend(h, from)
  {
  }

  lemma AttemptAnswers(w: World, h: History, q: Plain, r: Route)
    ensures var o := AttemptOutcome(w, h, q, r.name, r.target, r.timeout);
            IsAnswer(w, h, o.history, q, r, o.result)
  {
    if Admitted(w, h, r.name) && BodyReady(w, h, q, r) {
      var gated := Gated(h, r.name);
      var armed := Armed(w, gated, q.deadline, r.timeout);
      var ready := if q.buffer.Some? then Then(armed, BodyReplayed(true)) else armed;
      var out := OutFor(q, r.target, AttemptDeadline(w, gated, q.deadline, r.timeout));
      var cancel := if r.timeout > 0 then Some(gated.Length()) else None;
      var sent := Then(ready, Sent(out, w.base(ready, out).Ok?));
      var released := if w.base(ready, out).Ok? then sent else Cancelled(sent, cancel);
      assert gated.Length() == h.Length() + 2 && armed.Length() >= gated.Length() && ready.Length() >= armed.Length();
      LaterEvent(ready, sent.last, h);
      if released != sent { LaterEvent(sent, released.last, h); }
      LaterEvent(released, Recorded(r.name, w.base(ready, out).Ok?), h);
      assert SendOutcome(w, gated, q, r.target, r.timeout).history == released;
    }
  }

  /** The client gets the very answer of the last attempt: the status that the upstream gave, or the
      error of that attempt. */
  lemma ResultIsLastAnswer(w: World, h: History, q: Plain, primary: Route, fallback: Option<Route>)
    ensures var o, last := RoundTripOutcome(w, h, q, primary, fallback), LastTry(w, h, q, primary, fallback);
            IsAnswer(w, last.before, o.history, q, last.route, o.result)
  {
    var one := First(w, h, q, primary);
    AttemptAnswers(w, h, q, primary);
    if FailsOver(w, one, q, fallback.Some?) {
      AttemptAnswers(w, one.history, q.(rest := one.rest), fallback.value);
    }
  }

  /** The status of an error that comes from the last attempt itself. */
  lemma StatusOfFailure(w: World, h: History, q: Plain, primary: Route, fallback: Option<Route>)
    requires RoundTripOutcome(w, h, q, primary, fallback).result.Err?
    ensures var last := LastTry(w, h, q, primary, fallback);
            var e := RoundTripOutcome(w, h, q, primary, fallback).result.error;
            && (!Admitted(w, last.before, last.route.name) <==> StatusFor(e) == Some(503))
            && (Admitted(w, last.before, last.route.name) ==>
                  && (e.deadline <==> StatusFor(e) == Some(504))
                  && (!e.deadline && e.canceled <==> StatusFor(e) == None)
                  && (!e.deadline && !e.canceled && e.maxBytes <==> StatusFor(e) == Some(413))
                  && (!e.deadline && !e.canceled && !e.maxBytes <==> StatusFor(e) == Some(502)))
  {
    ResultIsLastAnswer(w, h, q, primary, fallback);
  }

  predicate LastIsRefused(w: World, h: History, q: Plain, primary: Route, fallback: Option<Route>) {
    var last := LastTry(w, h, q, primary, fallback);
    !Admitted(w, last.before, last.route.name)
  }

  /** The answer is 503 exactly when limiter or gate refuse the last attempt, which is then the last
      thing that happened. */
  lemma UnavailableMeansRefused(w: World, h: History, q: Plain, primary: Route, fallback: Option<Route>)
    ensures var o := RoundTripOutcome(w, h, q, primary, fallback);
            && (Unavailable(o) <==> LastIsRefused(w, h, q, primary, fallback))
            && (Unavailable(o) <==> EndsInRefusal(o.history))
  {
  }

  // ---- What the documentation says instead ----

  /** "Every upstream unavailable": the primary is refused, and so is the fallback if there is one. */
  predicate EveryUpstreamRefused(w: World, h: History, q: Plain, primary: Route, fallback: Option<Route>) {
    && !Admitted(w, h, primary.name)
    && (fallback.Some? ==> !Admitted(w, First(w, h, q, primary).history, fallback.value.name))
  }

  /** The documented rule for 503 holds of the code but in two cases: the fallback is refused after
      the primary was tried, or the primary is refused and the request may not go to a fallback that
      would be admitted. */
  lemma StatusAsDocumented(w: World, h: History, q: Plain, primary: Route, fallback: Option<Route>)
    ensures var o, one := RoundTripOutcome(w, h, q, primary, fallback), First(w, h, q, primary);
            (Unavailable(o) <==> EveryUpstreamRefused(w, h, q, primary, fallback))
            <==> !(if GoesOn(w, one, q, fallback)
                   then Admitted(w, h, primary.name) && !Admitted(w, one.history, fallback.value.name)
                   else && !Admitted(w, h, primary.name) && fallback.Some?
                        && Admitted(w, one.history, fallback.value.name))
  {
  }

  /** The primary cannot be reached: it was sent the request, and the base transport failed. */
  predicate Unreachable(w: World, h: History, q: Plain, primary: Route) {
    && Admitted(w, h, primary.name)
    && var gated := Gated(h, primary.name);
       var armed := Armed(w, gated, q.deadline, primary.timeout);
       var ready := if q.buffer.Some? then Then(armed, BodyReplayed(true)) else armed;
       var out := OutFor(q, primary.target, AttemptDeadline(w, gated, q.deadline, primary.timeout));
       (q.buffer.Some? ==> w.replay(armed).None?) && w.base(ready, out).Err?
  }

  /** A failover follows an unreachable primary, as documented, exactly when limiter and gate admitted
      the primary and its body was ready. */
  lemma FailoverAsDocumented(w: World, h: History, q: Plain, primary: Route, fallback: Option<Route>)
    requires GoesOn(w, First(w, h, q, primary), q, fallback)
    ensures Unreachable(w, h, q, primary) <==> Admitted(w, h, primary.name) && BodyReady(w, h, q, primary)
  {
  }

  /** A world in which the limiter refuses `refused` and the hosts `down` do not answer. */
  function Staged(refused: string, down: string): World {
    RawWorld((h, n) => n != refused, (h, n) => true, h => 0, h => false, h => None,
             (h, out: Outbound) => if out.url.host == down then Err(GoError(false, false, false, false)) else Ok(200),
             (h, out) => 0)
  }

  function Bare(httpMethod: string): Plain {
    Plain(httpMethod, UrlView("http", "a", [], ""), map[], [], Some([]), None)
  }

  const PRIMARY := Route("a", UrlView("http", "a", [], ""), 0)
  const FALLBACK := Route("b", UrlView("http", "b", [], ""), 0)

  /** 503 although the primary was available: it was sent the request and failed. */
  lemma RefusedFallbackHidesFailure()
    ensures var w, q := Staged("b", "a"), Bare("GET");
            && Unreachable(w, Start, q, PRIMARY)
            && Unavailable(RoundTripOutcome(w, Start, q, PRIMARY, Some(FALLBACK)))
            && !EveryUpstreamRefused(w, Start, q, PRIMARY, Some(FALLBACK))
  {
  }

  /** 503 although the fallback is available: a POST is not sent to it. */
  lemma RefusedPrimaryIgnoresFallback()
    ensures var w, q := Staged("a", ""), Bare("POST");
            && Unavailable(RoundTripOutcome(w, Start, q, PRIMARY, Some(FALLBACK)))
            && !EveryUpstreamRefused(w, Start, q, PRIMARY, Some(FALLBACK))
  {
  }

  /** A failover without any attempt to reach the primary: the limiter refuses it, and the fallback
      answers. */
  lemma RefusedPrimaryFailsOver()
    ensures var w, q := Staged("a", ""), Bare("GET");
            var o := RoundTripOutcome(w, Start, q, PRIMARY, Some(FALLBACK));
            && !Unreachable(w, Start, q, PRIMARY)
            && o.result.Ok? && TallyOf(o.history).sends == [OutFor(q, FALLBACK.target, None)]
  {
  }

  /** No deadline outlives a failed round trip; a successful one leaves at most the deadline of its
      response, and closing the body, once or more often, releases that. */
  lemma NoDeadlineLeaks(w: World, h: History, q: Plain, primary: Route, fallback: Option<Route>)
    requires Numbered(h)
    ensures var o := RoundTripOutcome(w, h, q, primary, fallback);
            && Numbered(o.history)
            && TallyOf(o.history).live == Kept(TallyOf(h).live, o.result)
  {
    var one := First(w, h, q, primary);
    AttemptEffects(w, h, q, primary);
    if FailsOver(w, one, q, fallback.Some?) {
      AttemptEffects(w, one.history, q.(rest := one.rest), fallback.value);
    }
  }

  lemma CloseReleases(h: History, resp: Response)
    ensures TallyOf(Cancelled(Then(h, BodyClosed), resp.cancel)).live == Without(TallyOf(h).live, resp.cancel)
  {
  }

  /** `h` continues `from`, and no event in between goes beyond the limit. */
  predicate WithinDeadline(h: History, from: History, limit: int) {
    h == from || (h.Then? && WithinDeadline(h.before, from, limit)
                  && (h.last.DeadlineArmed? ==> h.last.at <= limit)
                  && (h.last.Sent? ==> h.last.out.deadline.Some? && h.last.out.deadline.value <= limit))
  }

  lemma AttemptWithinDeadline(w: World, h: History, q: Plain, r: Route, from: History)
    requires q.deadline.Some? && WithinDeadline(h, from, q.deadline.value)
    ensures WithinDeadline(AttemptOutcome(w, h, q, r.name, r.target, r.timeout).history, from, q.deadline.value)
  {
    if Admitted(w, h, r.name) {
      assert WithinDeadline(Gated(h, r.name), from, q.deadline.value);
      var armed := Armed(w, Gated(h, r.name), q.deadline, r.timeout);
      assert WithinDeadline(armed, from, q.deadline.value);
      assert WithinDeadline(Then(armed, BodyReplayed(w.replay(armed).None?)), from, q.deadline.value);
      assert WithinDeadline(SendOutcome(w, Gated(h, r.name), q, r.target, r.timeout).history, from, q.deadline.value);
    }
  }

  /** Neither attempt extends the request's own deadline. */
  lemma RoundTripWithinDeadline(w: World, h: History, q: Plain, primary: Route, fallback: Option<Route>)
    requires q.deadline.Some?
    ensures WithinDeadline(RoundTripOutcome(w, h, q, primary, fallback).history, h, q.deadline.value)
  {
    var one := First(w, h, q, primary);
    AttemptWithinDeadline(w, h, q, primary, h);
    if FailsOver(w, one, q, fallback.Some?) {
      AttemptWithinDeadline(w, one.history, q.(rest := one.rest), fallback.value, h);
    }
  }
}
