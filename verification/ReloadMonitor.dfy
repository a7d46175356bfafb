/** The hot-reload monitor: its event loop, and its runs among file changes, timer and readers. */
module ReloadMonitor {
  import opened Foundations
  import opened ConfigModel
  import opened Routing
  import opened RouteIndexing
  import opened Routers

  const RELOAD_COOLDOWN: int := 1000  // milliseconds

  datatype Timer = Disarmed | Armed(at: int) | Fired  // Fired: its value waits on the channel

  datatype FsOp = Create | Write | Remove | Rename | Chmod

  /** What the select receives. `resolved`, `isTarget` and `present` are the answers of
      `filepath.Abs`, `isTargetPath` and `os.Stat`. */
  datatype Input =
    | Signal
    | FileEvent(ops: set<FsOp>, resolved: bool, isTarget: bool, present: bool)
    | TimerC
    | WatchError
    | Shutdown  // the context is done or a watcher channel is closed

  /** The loop's variables; "" means that no reload is pending. */
  datatype Control = Control(running: bool, onCoolDown: bool, pending: string, timer: Timer)

  /** The source that `reload` is called with for a change event, if the event is accepted. */
  function ChangeSource(i: Input): Option<string> {
    match i
    case Signal => Some("SIGHUP")
    case FileEvent(ops, resolved, isTarget, present) =>
      if !resolved || !isTarget then None
      else if Remove in ops || Rename in ops then if present then Some("config replaced") else None
      else if Write in ops || Create in ops then Some("config modified")
      else None
    case _ => None
  }

  /** What asks for a reload: a signal, a write to the config file or its creation, and its removal or
      renaming when it is there again. */
  predicate AsksForReload(i: Input) {
    match i
    case Signal => true
    case FileEvent(ops, resolved, isTarget, present) =>
      && resolved && isTarget
      && (present || (Remove !in ops && Rename !in ops))
      && exists op | op in ops :: op != Chmod
    case _ => false
  }

  /** Whether this input makes the loop read the file. */
  predicate Attempts(c: Control, i: Input) {
    if i.TimerC? then c.pending != "" else ChangeSource(i).Some? && !c.onCoolDown
  }

  /** The loop's variables after one turn; a reload re-arms the timer when it `finished`. */
  function Handle(c: Control, i: Input, finished: int): Control {
    if Attempts(c, i) then Control(true, true, if i.TimerC? then "" else c.pending, Armed(finished + RELOAD_COOLDOWN))
    else
      match i
      case TimerC => c.(onCoolDown := false, timer := Disarmed)
      case Shutdown => c.(running := false, timer := Disarmed)
      case _ => if ChangeSource(i).Some? then c.(pending := ChangeSource(i).value) else c
  }

  // ---- The event loop ----

  /** While the loop runs, it is on cooldown exactly while the timer is armed or its fire is
      undelivered, and a reload is pending only on cooldown. */
  ghost predicate ControlInv(c: Control) {
    c.running ==> (c.onCoolDown <==> !c.timer.Disarmed?) && (c.pending != "" ==> c.onCoolDown)
  }

  ghost predicate WasLoaded(lib: Lib, cfg: ConfigView) {
    exists doc :: Loaded(lib, doc) == Some(cfg)
  }

  /** Every config published so far, the current one last. */
  ghost predicate GoodHistory(lib: Lib, history: seq<ConfigView>) {
    history != [] && forall i | 0 <= i < |history| :: WasLoaded(lib, history[i])
  }

  /** A turn that reads a document that loads publishes it; no other turn publishes anything. */
  ghost function TurnHistory(
    lib: Lib, c: Control, history: seq<ConfigView>, i: Input, doc: Option<Document>): seq<ConfigView>
  {
    if Attempts(c, i) then AfterLoad(lib, history, doc) else history
  }

  /** What a turn has to do: a demand is met at once off cooldown and kept on cooldown, the end of the
      cooldown meets the one kept, and nothing else changes the config or what is kept. */
  ghost predicate IsObeyed(lib: Lib, before: Control, was: seq<ConfigView>, i: Input, doc: Option<Document>,
                           after: Control, published: seq<ConfigView>)
  {
    var attempts := if i.TimerC? then before.pending != "" else AsksForReload(i) && !before.onCoolDown;
    && (attempts ==> published == was + if Loaded(lib, doc).Some? then [Loaded(lib, doc).value] else [])
    && (attempts ==> after.onCoolDown && after.timer.Armed?)
    && (!attempts ==> published == was)
    && (after.pending != "" <==> if i.TimerC? then false else before.pending != "" || (AsksForReload(i) && !attempts))
    && (!attempts ==> after.onCoolDown == (before.onCoolDown && !i.TimerC?))
    && (!AsksForReload(i) && !i.TimerC? && !i.Shutdown? ==> after == before)
    && (after.running <==> !i.Shutdown?)
  }

  lemma HandleObeys(lib: Lib, c: Control, history: seq<ConfigView>, i: Input, doc: Option<Document>, finished: int)
    requires ControlInv(c) && c.running
    ensures IsObeyed(lib, c, history, i, doc, Handle(c, i, finished), TurnHistory(lib, c, history, i, doc))
  {
  }

  /** What the loop lives through: the timer fires, or the select receives something. */
  datatype Happening = Fires | Receives(i: Input, doc: Option<Document>, finished: int)

  ghost predicate Receivable(c: Control, e: Happening) {
    if e.Fires? then c.timer.Armed? else c.running && (e.i.TimerC? ==> c.timer.Fired?)
  }

  ghost predicate AllReceivable(lib: Lib, c: Control, es: seq<Happening>)
    decreases |es|
  {
    es == [] || (Receivable(c, es[0]) && AllReceivable(lib, AfterOne(c, es[0]), es[1..]))
  }

  function AfterOne(c: Control, e: Happening): Control {
    if e.Fires? then c.(timer := Fired) else Handle(c, e.i, e.finished)
  }

  ghost function PublishedAfter(lib: Lib, c: Control, history: seq<ConfigView>, e: Happening): seq<ConfigView> {
    if e.Fires? then history else TurnHistory(lib, c, history, e.i, e.doc)
  }

  /** The loop's variables and the published configs after all of these. */
  ghost function AfterAll(
    lib: Lib, c: Control, history: seq<ConfigView>, es: seq<Happening>): (Control, seq<ConfigView>)
    decreases |es|
  {
    if es == [] then (c, history)
    else
      AfterAll(lib, AfterOne(c, es[0]), PublishedAfter(lib, c, history, es[0]), es[1..])
  }

  class Monitor {
    const router: Router
    var running: bool
    var onCoolDown: bool
    var pendingReload: string
    var timer: Timer

    function View(): Control
      reads this
    {
      Control(running, onCoolDown, pendingReload, timer)
    }

    ghost predicate ValidRouter()
      reads this, router, router.index, router.index.prefix, router.index.prefix.Repr
    {
      router.Valid() && this !in router.index.prefix.Repr
    }

    /** Every published config was loaded, the one in use included. */
    ghost predicate Valid(lib: Lib)
      reads this, router, router.index, router.index.prefix, router.index.prefix.Repr
    {
      ValidRouter() && GoodHistory(lib, router.published) && ControlInv(View())
    }

    constructor (lib: Lib, router: Router)
      requires router.Valid() && GoodHistory(lib, router.published)
      ensures this.router == router && Valid(lib) && View() == Control(true, false, "", Disarmed)
    {
      this.router := router;
      running, onCoolDown, pendingReload, timer := true, false, "", Disarmed;
    }

    /** The closure `reload`; `doc` is what reading the file yields, should it be read. */
    method Reload(lib: Lib, source: string, doc: Option<Document>, finished: int) returns (attempted: bool)
      requires ValidRouter()
      modifies this, router
      ensures ValidRouter() && attempted == !old(onCoolDown)
      ensures View()
           == if attempted then old(View()).(onCoolDown := true, timer := Armed(finished + RELOAD_COOLDOWN))
              else old(View()).(pending := source)
      ensures router.published
           == if attempted then AfterLoad(lib, old(router.published), doc) else old(router.published)
      ensures !attempted || Loaded(lib, doc).None? ==> router.index == old(router.index)
    {
      attempted := !onCoolDown;
      if onCoolDown {
        pendingReload := source;
      } else {
        router.ReloadConfig(lib, doc);
        onCoolDown := true;
        timer := Armed(finished + RELOAD_COOLDOWN);
      }
    }

    method OnFileEvent(lib: Lib, i: Input, doc: Option<Document>, finished: int) returns (attempted: bool)
      requires ValidRouter() && i.FileEvent? && running
      modifies this, router
      ensures ValidRouter() && attempted == Attempts(old(View()), i)
      ensures View() == Handle(old(View()), i, finished)
      ensures router.published == TurnHistory(lib, old(View()), old(router.published), i, doc)
      ensures !attempted || Loaded(lib, doc).None? ==> router.index == old(router.index)
    {
      attempted := false;
      if i.resolved && i.isTarget {
        if Remove in i.ops || Rename in i.ops {
          if i.present { attempted := Reload(lib, "config replaced", doc, finished); }
        } else if Write in i.ops || Create in i.ops {
          attempted := Reload(lib, "config modified", doc, finished);
        }
      }
    }

    /** One turn of the loop: it follows `Handle`, and changes the published index exactly when it
        read a document that loads. */
    method Dispatch(lib: Lib, i: Input, doc: Option<Document>, finished: int) returns (attempted: bool)
      requires ValidRouter() && ControlInv(View()) && running && (i.TimerC? ==> timer.Fired?)
      modifies this, router
      ensures ValidRouter() && ControlInv(View())
      ensures attempted == Attempts(old(View()), i)
      ensures View() == Handle(old(View()), i, finished)
      ensures router.published == TurnHistory(lib, old(View()), old(router.published), i, doc)
      ensures IsObeyed(lib, old(View()), old(router.published), i, doc, View(), router.published)
      ensures !attempted || Loaded(lib, doc).None? ==> router.index == old(router.index)
    {
      HandleObeys(lib, View(), router.published, i, doc, finished);
      attempted := false;
      match i {
        case Shutdown =>
          running, timer := false, Disarmed;
        case Signal =>
          attempted := Reload(lib, "SIGHUP", doc, finished);
        case FileEvent(_, _, _, _) =>
          attempted := OnFileEvent(lib, i, doc, finished);
        case TimerC =>
          onCoolDown, timer := false, Disarmed;
          if pendingReload != "" {
            var source := pendingReload;
            pendingReload := "";
            attempted := Reload(lib, source, doc, finished);
          }
        case WatchError =>
      }
    }

    method Happen(lib: Lib, e: Happening)
      requires ValidRouter() && ControlInv(View()) && Receivable(View(), e)
      modifies this, router
      ensures ValidRouter() && ControlInv(View()) && View() == AfterOne(old(View()), e)
      ensures router.published == PublishedAfter(lib, old(View()), old(router.published), e)
    {
      match e {
        case Fires => timer := Fired;
        case Receives(i, doc, finished) => var _ := Dispatch(lib, i, doc, finished);
      }
    }

    /** The whole loop: whatever comes, the index in use is that of a config that loaded. */
    method Serve(lib: Lib, es: seq<Happening>)
      requires Valid(lib) && AllReceivable(lib, View(), es)
      modifies this, router
      ensures Valid(lib) && WasLoaded(lib, router.index.cfg)
      ensures (View(), router.published) == AfterAll(lib, old(View()), old(router.published), es)
    {
      for k := 0 to |es|
        invariant ValidRouter() && ControlInv(View())
        invariant AllReceivable(lib, View(), es[k..])
        invariant AfterAll(lib, View(), router.published, es[k..])
               == AfterAll(lib, old(View()), old(router.published), es)
      {
        assert es[k..][1..] == es[k + 1..];
        Happen(lib, es[k]);
      }
      AllLoaded(lib, old(View()), old(router.published), es);
    }
  }

  /** `AfterAll` takes the happenings one by one, each as it must be. */
  lemma {:induction false} EachIsObeyed(
    lib: Lib, c: Control, history: seq<ConfigView>, es: seq<Happening>, k: nat)
    requires ControlInv(c) && AllReceivable(lib, c, es) && k < |es|
    ensures var was, now := AfterAll(lib, c, history, es[..k]), AfterAll(lib, c, history, es[..k + 1]);
            if es[k].Fires? then now == (was.0.(timer := Fired), was.1)
            else IsObeyed(lib, was.0, was.1, es[k].i, es[k].doc, now.0, now.1)
    decreases |es|
  {
    var next, published := AfterOne(c, es[0]), PublishedAfter(lib, c, history, es[0]);
    if k == 0 {
      assert es[..1][1..] == [];
      if es[0].Receives? { HandleObeys(lib, c, history, es[0].i, es[0].doc, es[0].finished); }
    } else {
      assert es[..k][1..] == es[1..][..k - 1] && es[..k + 1][1..] == es[1..][..k];
      if es[0].Receives? { TurnKeepsControl(c, es[0].i, es[0].finished); }
      EachIsObeyed(lib, next, published, es[1..], k - 1);
    }
  }

  lemma {:induction false} AllLoaded(lib: Lib, c: Control, history: seq<ConfigView>, es: seq<Happening>)
    requires GoodHistory(lib, history)
    ensures GoodHistory(lib, AfterAll(lib, c, history, es).1)
    decreases |es|
  {
    if es != [] {
      AllLoaded(lib, AfterOne(c, es[0]), PublishedAfter(lib, c, history, es[0]), es[1..]);
    }
  }

  // ---- Runs ----

  /** The file is named by a version that every change increases. */
  datatype World = World(version: int, now: int, signalQueued: bool)

  datatype Attempt = Attempt(version: int, start: int, doc: Option<Document>)

  /** Reload attempts with what they read, and the file version at each change that the loop received
      and at each raised signal. */
  datatype Log = Log(attempts: seq<Attempt>, accepted: seq<int>, signals: seq<int>)

  /** How far a request is: the lookup to try next, the candidate found, or the decision. */
  datatype Stage =
    | AtExact
    | AtPrefix
    | AtRegex
    | Found(candidate: Candidate)
    | Decided(decision: Result<Decision, RouteError>)

  /** A request, and which published index it loaded. */
  datatype Reader = Reader(at: int, request: Request, stage: Stage)

  /** Every config published so far, the current one last, and the requests being served. */
  datatype Published = Published(history: seq<ConfigView>, readers: map<int, Reader>)

  datatype System = System(world: World, control: Control, log: Log, published: Published)

  datatype Step =
    | ChangeFile
    | Tick(d: int)
    | RaiseSignal
    | Expire
    | Turn(i: Input, doc: Option<Document>, took: int, changes: int)  // file changes while reading
    | LoadIndex(t: int, request: Request)
    | LookUp(t: int)
    | Finalize(t: int, decision: Result<Decision, RouteError>)

  predicate TurnEnabled(w: World, c: Control, i: Input, took: int, changes: int) {
    && c.running && took >= 0 && changes >= 0
    && (i.Signal? ==> w.signalQueued) && (i.TimerC? ==> c.timer.Fired?)
  }

  predicate HasPath(r: Request) {
    r.url.Some? && r.url.value != []
  }

  predicate Loads(history: seq<ConfigView>, r: Reader) {
    0 <= r.at < |history| && HasPath(r.request)
  }

  predicate LooksUp(history: seq<ConfigView>, r: Reader) {
    Loads(history, r) && (r.stage.AtExact? || r.stage.AtPrefix? || r.stage.AtRegex?)
  }

  /** What `finalize` may return for the candidate found. */
  ghost predicate Finalizes(lib: Lib, history: seq<ConfigView>, r: Reader, d: Result<Decision, RouteError>) {
    && Loads(history, r) && r.stage.Found?
    && var cfg, path, i := history[r.at], r.request.url.value, r.stage.candidate.route;
       i < |cfg.routes| && Applies(lib, cfg.routes[i].rule, r.request, path)
       && IsResolved(lib, cfg, r.request, path, i, d)
  }

  /** A request without a path is turned away before the index is loaded. */
  function Loading(history: seq<ConfigView>, r: Request): Reader {
    Reader(|history| - 1, r, if HasPath(r) then AtExact else Decided(Err(EmptyUrl)))
  }

  /** One lookup in the index that the request holds. */
  function LookedUp(lib: Lib, cfg: ConfigView, r: Reader): Reader
    requires HasPath(r.request) && (r.stage.AtExact? || r.stage.AtPrefix? || r.stage.AtRegex?)
  {
    var path := r.request.url.value;
    var c := match r.stage
             case AtExact => ExactCandidate(lib, cfg.routes, r.request, path)
             case AtPrefix => LongestPrefix(lib, cfg.routes, r.request, path, 0)
             case _ => RegexCandidate(lib, cfg.routes, r.request, path);
    var next := match r.stage
                case AtExact => AtPrefix
                case AtPrefix => AtRegex
                case _ => Decided(Err(RouteNotFound));
    r.(stage := if c.Some? then Found(c.value) else next)
  }

  ghost predicate Enabled(lib: Lib, s: System, e: Step) {
    match e
    case ChangeFile => true
    case Tick(d) => d >= 0
    case RaiseSignal => true
    case Expire => s.control.timer.Armed? && s.control.timer.at <= s.world.now
    case Turn(i, _, took, changes) => TurnEnabled(s.world, s.control, i, took, changes)
    case LoadIndex(t, _) => t !in s.published.readers && s.published.history != []
    case LookUp(t) => t in s.published.readers && LooksUp(s.published.history, s.published.readers[t])
    case Finalize(t, d) =>
      t in s.published.readers && Finalizes(lib, s.published.history, s.published.readers[t], d)
  }

  ghost function Apply(lib: Lib, s: System, e: Step): System
    requires Enabled(lib, s, e)
  {
    match e
    case ChangeFile => s.(world := s.world.(version := s.world.version + 1))
    case Tick(d) => s.(world := s.world.(now := s.world.now + d))
    case RaiseSignal =>
      s.(world := s.world.(signalQueued := true), log := s.log.(signals := s.log.signals + [s.world.version]))
    case Expire => s.(control := s.control.(timer := Fired))
    case Turn(i, doc, took, changes) => TakeTurn(lib, s, i, doc, took, changes)
    case LoadIndex(t, r) => s.(published := Moved(s.published, t, Loading(s.published.history, r)))
    case LookUp(t) =>
      var r := s.published.readers[t];
      s.(published := Moved(s.published, t, LookedUp(lib, s.published.history[r.at], r)))
    case Finalize(t, d) => s.(published := Moved(s.published, t, s.published.readers[t].(stage := Decided(d))))
  }

  function Moved(p: Published, t: int, r: Reader): Published {
    p.(readers := p.readers[t := r])
  }

  /** A reload takes its time, and the file may change meanwhile. */
  function TurnWorld(w: World, c: Control, i: Input, took: int, changes: int): World {
    if Attempts(c, i) then World(w.version + changes, w.now + took, w.signalQueued && !i.Signal?)
    else w.(signalQueued := w.signalQueued && !i.Signal?)
  }

  function TurnLog(w: World, c: Control, l: Log, i: Input, doc: Option<Document>): Log {
    l.(attempts := if Attempts(c, i) then l.attempts + [Attempt(w.version, w.now, doc)] else l.attempts,
       accepted := if AsksForReload(i) then l.accepted + [w.version] else l.accepted)
  }

  ghost function TakeTurn(lib: Lib, s: System, i: Input, doc: Option<Document>, took: int, changes: int): System {
    var w := TurnWorld(s.world, s.control, i, took, changes);
    System(w, Handle(s.control, i, w.now), TurnLog(s.world, s.control, s.log, i, doc),
           s.published.(history := TurnHistory(lib, s.control, s.published.history, i, doc)))
  }

  ghost predicate Run(lib: Lib, start: System, steps: seq<Step>, end: System)
    decreases |steps|
  {
    if steps == [] then start == end
    else
      var last := steps[|steps| - 1];
      exists s :: Run(lib, start, steps[..|steps| - 1], s) && Enabled(lib, s, last) && end == Apply(lib, s, last)
  }

  /** `CreateFromConfig` starts the monitor on a config that loaded. */
  ghost predicate IsInitial(lib: Lib, s: System) {
    && s.control == Control(true, false, "", Disarmed)
    && s.log == Log([], [], []) && !s.world.signalQueued
    && s.published.readers == map[] && |s.published.history| == 1 && WasLoaded(lib, s.published.history[0])
  }

  ghost predicate Reachable(lib: Lib, s: System) {
    exists start, steps :: IsInitial(lib, start) && Run(lib, start, steps, s)
  }

  // ---- Invariants ----

  /** A reload read the file at version `v` or later. */
  predicate Covered(attempts: seq<Attempt>, v: int) {
    attempts != [] && attempts[|attempts| - 1].version >= v
  }

  predicate WillReload(c: Control) {
    c.pending != "" && !c.timer.Disarmed?
  }

  ghost predicate ReloadInv(w: World, c: Control, l: Log) {
    && (forall v | v in l.accepted :: v <= w.version)
    && (forall v | v in l.signals :: v <= w.version)
    && (c.running ==> forall v | v in l.accepted :: Covered(l.attempts, v) || WillReload(c))
    && (c.running ==> forall v | v in l.signals :: w.signalQueued || Covered(l.attempts, v) || WillReload(c))
  }

  ghost predicate Spaced(attempts: seq<Attempt>) {
    forall i, j | 0 <= i < j < |attempts| && j == i + 1 :: attempts[j].start >= attempts[i].start + RELOAD_COOLDOWN
  }

  /** The cooldown of the last attempt is over only when its timer has fired. */
  ghost predicate SpacingInv(w: World, c: Control, l: Log) {
    && (c.timer.Armed? ==> c.timer.at <= w.now + RELOAD_COOLDOWN)
    && Spaced(l.attempts)
    && (l.attempts != [] ==>
          var last := l.attempts[|l.attempts| - 1];
          && last.start <= w.now && last.version <= w.version
          && (c.timer.Armed? ==> c.timer.at >= last.start + RELOAD_COOLDOWN)
          && (c.running && !c.timer.Armed? ==> w.now >= last.start + RELOAD_COOLDOWN))
  }

  ghost predicate SnapshotInv(lib: Lib, p: Published) {
    && GoodHistory(lib, p.history)
    && (forall t | t in p.readers :: ReaderOk(lib, p.history, p.readers[t]))
  }

  /** The lookups so far are those of the one index that the request holds. */
  ghost predicate ReaderOk(lib: Lib, history: seq<ConfigView>, r: Reader) {
    && 0 <= r.at < |history|
    && if r.stage.Decided? then IsDecision(lib, history[r.at], r.request, r.stage.decision)
       else HasPath(r.request) && AgreesSoFar(lib, history[r.at].routes, r.request, r.request.url.value, r.stage)
  }

  predicate AgreesSoFar(lib: Lib, routes: seq<Route>, r: Request, path: Bytes, stage: Stage) {
    match stage
    case AtExact => true
    case AtPrefix => ExactCandidate(lib, routes, r, path).None?
    case AtRegex => ExactCandidate(lib, routes, r, path).None? && LongestPrefix(lib, routes, r, path, 0).None?
    case Found(c) => IndexCandidate(lib, routes, r, path) == Some(c)
    case Decided(_) => true
  }

  /** What the attempts loaded, in order. */
  ghost function LoadsOf(lib: Lib, attempts: seq<Attempt>): seq<ConfigView> {
    if attempts == [] then []
    else AfterLoad(lib, LoadsOf(lib, attempts[..|attempts| - 1]), attempts[|attempts| - 1].doc)
  }

  /** Nothing else is published than what the attempts loaded, and all of that. */
  ghost predicate LoadsInv(lib: Lib, history: seq<ConfigView>, attempts: seq<Attempt>) {
    history != [] && history[1..] == LoadsOf(lib, attempts)
  }

  ghost predicate Inv(lib: Lib, s: System) {
    && ControlInv(s.control) && ReloadInv(s.world, s.control, s.log) && SpacingInv(s.world, s.control, s.log)
    && SnapshotInv(lib, s.published) && LoadsInv(lib, s.published.history, s.log.attempts)
  }

  lemma TurnKeepsControl(c: Control, i: Input, finished: int)
    requires ControlInv(c) && c.running && (i.TimerC? ==> c.timer.Fired?)
    ensures ControlInv(Handle(c, i, finished))
  {
  }

  lemma TurnKeepsReloads(w: World, c: Control, l: Log, i: Input, doc: Option<Document>, took: int,
                          changes: int)
    requires ControlInv(c) && ReloadInv(w, c, l) && TurnEnabled(w, c, i, took, changes)
    ensures var w' := TurnWorld(w, c, i, took, changes); ReloadInv(w', Handle(c, i, w'.now), TurnLog(w, c, l, i, doc))
  {
  }

  lemma SpacedMore(attempts: seq<Attempt>, a: Attempt)
    requires Spaced(attempts) && attempts != []
    ensures a.start >= attempts[|attempts| - 1].start + RELOAD_COOLDOWN ==> Spaced(attempts + [a])
  {
  }

  lemma TurnKeepsSpacing(w: World, c: Control, l: Log, i: Input, doc: Option<Document>, took: int,
                          changes: int)
    requires ControlInv(c) && SpacingInv(w, c, l) && TurnEnabled(w, c, i, took, changes)
    ensures var w' := TurnWorld(w, c, i, took, changes); SpacingInv(w', Handle(c, i, w'.now), TurnLog(w, c, l, i, doc))
  {
    if l.attempts != [] {
      SpacedMore(l.attempts, Attempt(w.version, w.now, doc));
    }
  }

  lemma TurnKeepsSnapshots(lib: Lib, c: Control, p: Published, i: Input, doc: Option<Document>)
    requires SnapshotInv(lib, p)
    ensures SnapshotInv(lib, p.(history := TurnHistory(lib, c, p.history, i, doc)))
  {
  }

  lemma MoveKeepsSnapshots(lib: Lib, p: Published, t: int, r: Reader)
    requires SnapshotInv(lib, p) && ReaderOk(lib, p.history, r)
    ensures SnapshotInv(lib, Moved(p, t, r))
  {
  }

  lemma LookUpKeepsReader(lib: Lib, history: seq<ConfigView>, r: Reader)
    requires ReaderOk(lib, history, r) && LooksUp(history, r)
    ensures ReaderOk(lib, history, LookedUp(lib, history[r.at], r))
  {
    CandidateDecides(lib, history[r.at], r.request);
  }

  lemma FinalizeKeepsReader(lib: Lib, history: seq<ConfigView>, r: Reader, d: Result<Decision, RouteError>)
    requires ReaderOk(lib, history, r) && Finalizes(lib, history, r, d)
    ensures ReaderOk(lib, history, r.(stage := Decided(d)))
  {
    CandidateDecides(lib, history[r.at], r.request);
  }

  lemma TurnKeepsLoads(
    lib: Lib, w: World, c: Control, l: Log, history: seq<ConfigView>, i: Input, doc: Option<Document>)
    requires LoadsInv(lib, history, l.attempts)
    ensures LoadsInv(lib, TurnHistory(lib, c, history, i, doc), TurnLog(w, c, l, i, doc).attempts)
  {
    var more := TurnLog(w, c, l, i, doc).attempts;
    if Attempts(c, i) { assert more[..|more| - 1] == l.attempts; }
  }

  lemma TurnKeepsInv(lib: Lib, s: System, i: Input, doc: Option<Document>, took: int, changes: int)
    requires Inv(lib, s) && TurnEnabled(s.world, s.control, i, took, changes)
    ensures Inv(lib, TakeTurn(lib, s, i, doc, took, changes))
  {
    TurnKeepsControl(s.control, i, TurnWorld(s.world, s.control, i, took, changes).now);
    TurnKeepsReloads(s.world, s.control, s.log, i, doc, took, changes);
    TurnKeepsSpacing(s.world, s.control, s.log, i, doc, took, changes);
    TurnKeepsSnapshots(lib, s.control, s.published, i, doc);
    TurnKeepsLoads(lib, s.world, s.control, s.log, s.published.history, i, doc);
  }

  lemma StepKeepsInv(lib: Lib, s: System, e: Step)
    requires Inv(lib, s) && Enabled(lib, s, e)
    ensures Inv(lib, Apply(lib, s, e))
  {
    var p := s.published;
    match e
    case Turn(i, doc, took, changes) => TurnKeepsInv(lib, s, i, doc, took, changes);
    case LoadIndex(t, r) => MoveKeepsSnapshots(lib, p, t, Loading(p.history, r));
    case LookUp(t) =>
      LookUpKeepsReader(lib, p.history, p.readers[t]);
      MoveKeepsSnapshots(lib, p, t, LookedUp(lib, p.history[p.readers[t].at], p.readers[t]));
    case Finalize(t, d) =>
      FinalizeKeepsReader(lib, p.history, p.readers[t], d);
      MoveKeepsSnapshots(lib, p, t, p.readers[t].(stage := Decided(d)));
    case _ =>
  }

  lemma {:induction false} RunKeepsInv(lib: Lib, start: System, steps: seq<Step>, end: System)
    requires Inv(lib, start) && Run(lib, start, steps, end)
    ensures Inv(lib, end)
    decreases |steps|
  {
    if steps != [] {
      var last, before := steps[|steps| - 1], steps[..|steps| - 1];
      var s :| Run(lib, start, before, s) && Enabled(lib, s, last) && end == Apply(lib, s, last);
      RunKeepsInv(lib, start, before, s);
      StepKeepsInv(lib, s, last);
    }
  }

  lemma ReachableInv(lib: Lib, s: System)
    requires Reachable(lib, s)
    ensures Inv(lib, s)
  {
    var start, steps :| IsInitial(lib, start) && Run(lib, start, steps, s);
    RunKeepsInv(lib, start, steps, s);
  }

  // ---- Main results ----

  /** No accepted change is lost: while the loop runs, a reload has read the file at or after it, or
      one is pending and its timer will fire. The same holds for every signal ever raised, once it
      is off the channel. */
  lemma NoReloadIsLost(lib: Lib, s: System)
    requires Reachable(lib, s) && s.control.running
    ensures forall v | v in s.log.accepted :: Covered(s.log.attempts, v) || WillReload(s.control)
    ensures forall v | v in s.log.signals ::
              s.world.signalQueued || Covered(s.log.attempts, v) || WillReload(s.control)
  {
    ReachableInv(lib, s);
  }

  lemma FireReloads(lib: Lib, s: System, doc: Option<Document>, took: int, changes: int)
    requires Inv(lib, s) && s.control.pending != "" && Enabled(lib, s, Turn(TimerC, doc, took, changes))
    ensures var q := Apply(lib, s, Turn(TimerC, doc, took, changes));
            && q.log.attempts == s.log.attempts + [Attempt(s.world.version, s.world.now, doc)]
            && q.control.pending == "" && forall v | v in q.log.accepted :: Covered(q.log.attempts, v)
  {
  }

  /** The promised fire delivers: it reads the file as it is then, and every change accepted so far
      is covered. */
  lemma PendingReloadHappens(
    lib: Lib, s: System, doc: Option<Document>, took: int, changes: int, q: System)
    requires Reachable(lib, s) && s.control.pending != "" && Enabled(lib, s, Turn(TimerC, doc, took, changes))
    requires q == Apply(lib, s, Turn(TimerC, doc, took, changes))
    ensures q.log.attempts == s.log.attempts + [Attempt(s.world.version, s.world.now, doc)]
    ensures q.control.pending == "" && forall v | v in q.log.accepted :: Covered(q.log.attempts, v)
  {
    ReachableInv(lib, s);
    FireReloads(lib, s, doc, took, changes);
  }

  lemma RunOneMore(lib: Lib, start: System, steps: seq<Step>, s: System, e: Step)
    requires Run(lib, start, steps, s) && Enabled(lib, s, e)
    ensures Run(lib, start, steps + [e], Apply(lib, s, e))
  {
    var more := steps + [e];
    assert more[..|more| - 1] == steps && more[|more| - 1] == e;
  }

  /** Time passes until the timer fires. */
  lemma TimerFires(lib: Lib, s: System, wait: nat)
    requires s.control.timer.Armed? && s.control.timer.at <= s.world.now + wait
    ensures var q := s.(world := s.world.(now := s.world.now + wait), control := s.control.(timer := Fired));
            Run(lib, s, [Tick(wait), Expire], q)
  {
    var late := Apply(lib, s, Tick(wait));
    assert Run(lib, s, [], s);
    RunOneMore(lib, s, [], s, Tick(wait));
    assert [] + [Tick(wait)] == [Tick(wait)];
    RunOneMore(lib, s, [Tick(wait)], late, Expire);
    assert [Tick(wait)] + [Expire] == [Tick(wait), Expire];
  }

  lemma AwaitTimer(lib: Lib, s: System) returns (steps: seq<Step>, fired: System)
    requires Inv(lib, s) && s.control.running && s.control.pending != ""
    ensures Run(lib, s, steps, fired) && forall e | e in steps :: e.Tick? || e.Expire?
    ensures Inv(lib, fired) && fired.control == s.control.(timer := Fired) && fired.log == s.log
  {
    steps, fired := [], s;
    if s.control.timer.Armed? {
      var wait := if s.control.timer.at > s.world.now then s.control.timer.at - s.world.now else 0;
      TimerFires(lib, s, wait);
      steps := [Tick(wait), Expire];
      fired := s.(world := s.world.(now := s.world.now + wait), control := s.control.(timer := Fired));
    }
    RunKeepsInv(lib, s, steps, fired);
  }

  /** And it can always come: time passes, the timer fires, and the loop receives its value. */
  lemma PendingReloadComes(lib: Lib, s: System, doc: Option<Document>, took: nat, changes: nat)
    returns (steps: seq<Step>, q: System)
    requires Reachable(lib, s) && s.control.running && s.control.pending != ""
    ensures Run(lib, s, steps, q)
    ensures forall e | e in steps :: e.Tick? || e.Expire? || e == Turn(TimerC, doc, took, changes)
    ensures |q.log.attempts| == |s.log.attempts| + 1 && q.control.pending == ""
    ensures forall v | v in q.log.accepted :: Covered(q.log.attempts, v)
  {
    ReachableInv(lib, s);
    var fired;
    steps, fired := AwaitTimer(lib, s);
    var turn := Turn(TimerC, doc, took, changes);
    FireReloads(lib, fired, doc, took, changes);
    RunOneMore(lib, s, steps, fired, turn);
    steps, q := steps + [turn], Apply(lib, fired, turn);
  }

  /** Rate limit: two reload attempts are at least one cooldown apart. */
  lemma {:induction false} AttemptsAreSpaced(lib: Lib, s: System, i: nat, j: nat)
    requires Reachable(lib, s) && i < j < |s.log.attempts|
    ensures s.log.attempts[j].start - s.log.attempts[i].start >= (j - i) * 1000
    decreases j - i
  {
    ReachableInv(lib, s);
    if i + 1 < j { AttemptsAreSpaced(lib, s, i, j - 1); }
    var before := j - 1;
    assert s.log.attempts[j].start >= s.log.attempts[before].start + RELOAD_COOLDOWN;
  }

  /** The loop's variables are consistent in every reachable state. */
  lemma CooldownMatchesTimer(lib: Lib, s: System)
    requires Reachable(lib, s) && s.control.running
    ensures s.control.onCoolDown <==> !s.control.timer.Disarmed?
    ensures s.control.timer.Armed? ==> s.control.timer.at <= s.world.now + 1000
    ensures s.control.pending != "" ==> s.control.onCoolDown
  {
    ReachableInv(lib, s);
  }

  /** A step within one cooldown: neither the timer's value nor a shutdown is received. */
  predicate WithinCooldown(e: Step) {
    !(e.Turn? && (e.i.TimerC? || e.i.Shutdown?))
  }

  predicate IsAcceptedChange(e: Step) {
    e.Turn? && AsksForReload(e.i)
  }

  ghost predicate AnyAcceptedChange(steps: seq<Step>) {
    exists e | e in steps :: IsAcceptedChange(e)
  }

  lemma StepWithinCooldown(lib: Lib, s: System, e: Step)
    requires s.control.running && s.control.onCoolDown && Enabled(lib, s, e) && WithinCooldown(e)
    ensures var q := Apply(lib, s, e);
            && q.control.running && q.control.onCoolDown && q.log.attempts == s.log.attempts
            && (q.control.pending != "" <==> s.control.pending != "" || IsAcceptedChange(e))
  {
  }

  /** However many changes arrive within one cooldown, they cause no attempt; a reload is pending
      afterwards exactly when one was before or a change was accepted. */
  lemma {:induction false} ChangesCoalesce(lib: Lib, start: System, steps: seq<Step>, end: System)
    requires start.control.running && start.control.onCoolDown && Run(lib, start, steps, end)
    requires forall e | e in steps :: WithinCooldown(e)
    ensures end.control.running && end.control.onCoolDown && end.log.attempts == start.log.attempts
    ensures end.control.pending != "" <==> start.control.pending != "" || AnyAcceptedChange(steps)
    decreases |steps|
  {
    if steps != [] {
      var last, before := steps[|steps| - 1], steps[..|steps| - 1];
      var s :| Run(lib, start, before, s) && Enabled(lib, s, last) && end == Apply(lib, s, last);
      assert last in steps && forall e | e in before :: e in steps;
      ChangesCoalesce(lib, start, before, s);
      StepWithinCooldown(lib, s, last);
      assert forall e :: e in steps <==> e in before || e == last by { assert steps == before + [last]; }
    }
  }

  /** So one cooldown with any number of accepted changes ends in exactly one reload, and one
      without changes in none. */
  lemma OneTrailingReload(
    lib: Lib, start: System, steps: seq<Step>, end: System, doc: Option<Document>, took: int, changes: int)
    requires start.control.running && start.control.onCoolDown && start.control.pending == ""
    requires Run(lib, start, steps, end) && forall e | e in steps :: WithinCooldown(e)
    requires Enabled(lib, end, Turn(TimerC, doc, took, changes))
    ensures var after := Apply(lib, end, Turn(TimerC, doc, took, changes));
            && |after.log.attempts| == |start.log.attempts| + (if AnyAcceptedChange(steps) then 1 else 0)
            && after.control.pending == ""
  {
    ChangesCoalesce(lib, start, steps, end);
  }

  /** Every config that an attempt loaded was published, in this order, and nothing else since the
      start. */
  lemma EveryLoadIsPublished(lib: Lib, s: System)
    requires Reachable(lib, s)
    ensures s.published.history != [] && s.published.history[1..] == LoadsOf(lib, s.log.attempts)
  {
    ReachableInv(lib, s);
  }

  ghost predicate PublishedBy(lib: Lib, e: Step, cfg: ConfigView) {
    e.Turn? && Loaded(lib, e.doc) == Some(cfg)
  }

  /** A step publishes at most one config, which it has read and loaded. */
  lemma StepPublishes(lib: Lib, s: System, e: Step)
    requires Enabled(lib, s, e)
    ensures var before, after, q := s.published.history, Apply(lib, s, e).published.history, Apply(lib, s, e);
            && before <= after && |after| - |before| <= |q.log.attempts| - |s.log.attempts|
            && |after| <= |before| + 1
            && (after != before ==> PublishedBy(lib, e, after[|before|]))
  {
  }

  ghost predicate PublishedIn(lib: Lib, steps: seq<Step>, cfg: ConfigView) {
    exists e | e in steps :: PublishedBy(lib, e, cfg)
  }

  lemma {:induction false} RunPublishes(lib: Lib, start: System, steps: seq<Step>, end: System)
    requires Run(lib, start, steps, end)
    ensures var was, now := start.published.history, end.published.history;
            && was <= now && |now| - |was| <= |end.log.attempts| - |start.log.attempts|
            && forall k | |was| <= k < |now| :: PublishedIn(lib, steps, now[k])
    decreases |steps|
  {
    if steps != [] {
      var last, before := steps[|steps| - 1], steps[..|steps| - 1];
      var s :| Run(lib, start, before, s) && Enabled(lib, s, last) && end == Apply(lib, s, last);
      RunPublishes(lib, start, before, s);
      StepPublishes(lib, s, last);
      assert last in steps && forall e | e in before :: e in steps;
      forall cfg | PublishedIn(lib, before, cfg) ensures PublishedIn(lib, steps, cfg) {}
    }
  }

  /** The published configs of a run: what was there stays, and each new one was loaded by a turn of
      the run, no two by the same reload. */
  lemma LastKnownGood(lib: Lib, start: System, steps: seq<Step>, end: System)
    requires Reachable(lib, start) && Run(lib, start, steps, end)
    ensures GoodHistory(lib, end.published.history)
    ensures var was, now := start.published.history, end.published.history;
            && was <= now && |now| - |was| <= |end.log.attempts| - |start.log.attempts|
            && forall k | |was| <= k < |now| :: PublishedIn(lib, steps, now[k])
  {
    ReachableInv(lib, start);
    RunKeepsInv(lib, start, steps, end);
    RunPublishes(lib, start, steps, end);
  }

  /** A step leaves a reader's snapshot alone. */
  lemma StepKeepsReader(lib: Lib, s: System, e: Step, t: int)
    requires SnapshotInv(lib, s.published) && Enabled(lib, s, e) && t in s.published.readers
    ensures var before, after := s.published, Apply(lib, s, e).published;
            && before.history <= after.history && t in after.readers
            && after.readers[t].at == before.readers[t].at && after.readers[t].request == before.readers[t].request
  {
  }

  /** However reloads fall between the lookups of a request, its decision is the documented one for
      a single config: the one in use when the request loaded the index. */
  lemma {:induction false} DecisionsUseOneSnapshot(
    lib: Lib, start: System, t: int, r: Request, steps: seq<Step>, end: System)
    requires Reachable(lib, start) && Enabled(lib, start, LoadIndex(t, r))
    requires Run(lib, Apply(lib, start, LoadIndex(t, r)), steps, end)
    ensures start.published.history <= end.published.history
    ensures t in end.published.readers && end.published.readers[t].request == r
    ensures end.published.readers[t].at == |start.published.history| - 1
    ensures var current := start.published.history[|start.published.history| - 1];
            && WasLoaded(lib, current)
            && (end.published.readers[t].stage.Decided? ==>
                  IsDecision(lib, current, r, end.published.readers[t].stage.decision))
    decreases |steps|
  {
    var loaded := Apply(lib, start, LoadIndex(t, r));
    ReachableInv(lib, start);
    StepKeepsInv(lib, start, LoadIndex(t, r));
    RunKeepsInv(lib, loaded, steps, end);
    if steps != [] {
      var last, before := steps[|steps| - 1], steps[..|steps| - 1];
      var s :| Run(lib, loaded, before, s) && Enabled(lib, s, last) && end == Apply(lib, s, last);
      DecisionsUseOneSnapshot(lib, start, t, r, before, s);
      RunKeepsInv(lib, loaded, before, s);
      StepKeepsReader(lib, s, last, t);
    }
    assert ReaderOk(lib, end.published.history, end.published.readers[t]);
  }

  /** No request gets stuck between its lookups, whatever was published since it loaded the index. */
  lemma NoRequestIsStuck(lib: Lib, s: System, t: int) returns (e: Step)
    requires Reachable(lib, s) && t in s.published.readers && !s.published.readers[t].stage.Decided?
    ensures Enabled(lib, s, e) && (e == LookUp(t) || (e.Finalize? && e.t == t))
  {
    ReachableInv(lib, s);
    var r := s.published.readers[t];
    assert ReaderOk(lib, s.published.history, r);
    e := LookUp(t);
    if r.stage.Found? {
      var cfg := s.published.history[r.at];
      CandidateDecides(lib, cfg, r.request);
      var d := WinnerResolves(lib, cfg, r.request, r.request.url.value, r.stage.candidate.route);
      e := Finalize(t, d);
    }
  }
}
