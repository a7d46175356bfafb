/** The mirroring worker pool as a transition system: submitters, workers and stoppers interleave,
    one shared-memory action at a time. */
module MirrorPool {
  import opened Foundations

  type Call = int     // one call of TrySubmit, which also names the job it carries
  type Stopper = int  // one call of Stop

  // ---- Program counters ----

  datatype SubmitPc =
    | Waiting                    // before RLock
    | Locked                     // holds the read lock, about to test `stopped`
    | Passed                     // saw `stopped` unset, about to select
    | Unlocking(accepted: bool)  // decided, deferred RUnlock pending
    | Submitted(accepted: bool)  // returned
  {
    predicate HoldsLock() { Locked? || Passed? || Unlocking? }

    predicate Decided() { Unlocking? || Submitted? }
  }

  datatype StopPc =
    | Starting                   // before Lock
    | Testing                    // holds the write lock
    | Closing                    // has set `stopped`
    | Leaving(closed: bool)      // about to unlock
    | Draining                   // in wg.Wait
    | Stopped(drained: bool)     // returned
  {
    predicate HoldsLock() { Testing? || Closing? || Leaving? }

    /** Has set `stopped`. */
    predicate IsCloser() { Closing? || this == Leaving(true) || Draining? || this == Stopped(true) }
  }

  datatype WorkerPc =
    | Receiving                  // at the range over the queue
    | Sampling(job: Call, k: nat)
    | Sending(job: Call, k: nat)
    | Exited
  {
    predicate Busy() { Sampling? || Sending? }

    predicate Holds(c: Call) { Busy() && job == c }
  }

  // ---- State ----

  /** The mutex-protected side; `closer` is the call that set `stopped`. */
  datatype Gate = Gate(
    stopped: bool, closed: bool, closer: Option<Stopper>,
    submitters: map<Call, SubmitPc>, stoppers: map<Stopper, StopPc>,
    panicked: bool)              // a send on, or a close of, a closed queue

  /** What a dropped call saw. */
  datatype Drop = Drop(stopped: bool, queued: int)

  /** The channel, with the order in which jobs entered and left it. */
  datatype Flow = Flow(queue: seq<Call>, accepted: seq<Call>, dequeued: seq<Call>, drops: map<Call, Drop>)

  datatype Outcome = Skipped | Sent | Failed

  /** The workers, who holds which job, the finished jobs, and the outcomes per job in order. */
  datatype Crew = Crew(
    workers: seq<WorkerPc>, hands: map<Call, int>, completed: set<Call>, outcomes: map<Call, seq<Outcome>>)

  /** What the environment answered about target `k` of a job: the random number, and whether the
      send returned without an error. */
  datatype Answers = Answers(drawn: map<(Call, int), real>, returned: map<(Call, int), bool>)

  datatype Pool = Pool(gate: Gate, flow: Flow, crew: Crew, answers: Answers)

  const DEFAULT_WORKERS := 10
  const DEFAULT_QUEUE_SIZE := 100

  /** The configured queue size and, for every call that may come, the sampling ratios of its
      job's targets. */
  datatype Setup = Setup(queueSize: int, targets: Call -> seq<real>) {
    function Capacity(): int {
      if queueSize <= 0 then DEFAULT_QUEUE_SIZE else queueSize
    }
  }

  /** `NewPool`. */
  function NewPool(workers: int): Pool {
    var n := if workers <= 0 then DEFAULT_WORKERS else workers;
    Pool(Gate(false, false, None, map[], map[], false), Flow([], [], [], map[]),
         Crew(seq(n, _ => Receiving), map[], {}, map[]), Answers(map[], map[]))
  }

  /** For a number in [0, 1) the three cases are one threshold. */
  predicate Sample(ratio: real, rnd: real): (sent: bool)
    ensures 0.0 <= rnd < 1.0 ==> (sent <==> rnd < ratio)
  {
    if ratio <= 0.0 then false else if ratio >= 1.0 then true else rnd < ratio
  }

  // ---- Steps of TrySubmit ----

  datatype SubmitAction = CallSubmit | AcquireRead | TestStopped | Select | ReleaseRead

  ghost predicate Writing(g: Gate) {
    exists t | t in g.stoppers :: g.stoppers[t].HoldsLock()
  }

  ghost predicate Reading(g: Gate) {
    exists c | c in g.submitters :: g.submitters[c].HoldsLock()
  }

  ghost predicate SubmitEnabled(g: Gate, c: Call, a: SubmitAction) {
    match a
    case CallSubmit => c !in g.submitters
    case AcquireRead => c in g.submitters && g.submitters[c].Waiting? && !Writing(g)
    case TestStopped => c in g.submitters && g.submitters[c].Locked?
    case Select => c in g.submitters && g.submitters[c].Passed?
    case ReleaseRead => c in g.submitters && g.submitters[c].Unlocking?
  }

  predicate Sends(x: Setup, g: Gate, f: Flow, a: SubmitAction) {
    a.Select? && !g.closed && |f.queue| < x.Capacity()
  }

  function SubmitGate(x: Setup, g: Gate, f: Flow, c: Call, a: SubmitAction): Gate {
    match a
    case CallSubmit => g.(submitters := g.submitters[c := Waiting])
    case AcquireRead => g.(submitters := g.submitters[c := Locked])
    case TestStopped => g.(submitters := g.submitters[c := if g.stopped then Unlocking(false) else Passed])
    case Select =>
      g.(submitters := g.submitters[c := Unlocking(Sends(x, g, f, a))], panicked := g.panicked || g.closed)
    case ReleaseRead =>
      if c in g.submitters && g.submitters[c].Decided()
      then g.(submitters := g.submitters[c := Submitted(g.submitters[c].accepted)]) else g
  }

  /** A send on a closed queue panics; a full queue or a stopped pool drops the job. */
  function SubmitFlow(x: Setup, g: Gate, f: Flow, c: Call, a: SubmitAction): Flow {
    if Sends(x, g, f, a) then f.(queue := f.queue + [c], accepted := f.accepted + [c])
    else if (a.TestStopped? && g.stopped) || (a.Select? && !g.closed)
    then f.(drops := f.drops[c := Drop(g.stopped, |f.queue|)])
    else f
  }

  // ---- Steps of Stop ----

  datatype StopAction = CallStop | AcquireWrite | TestAndSet | CloseQueue | ReleaseWrite | WaitDone

  ghost predicate StopEnabled(g: Gate, workers: seq<WorkerPc>, t: Stopper, a: StopAction) {
    match a
    case CallStop => t !in g.stoppers
    case AcquireWrite => t in g.stoppers && g.stoppers[t].Starting? && !Writing(g) && !Reading(g)
    case TestAndSet => t in g.stoppers && g.stoppers[t].Testing?
    case CloseQueue => t in g.stoppers && g.stoppers[t].Closing?
    case ReleaseWrite => t in g.stoppers && g.stoppers[t].Leaving?
    case WaitDone => t in g.stoppers && g.stoppers[t].Draining? && forall w | 0 <= w < |workers| :: workers[w].Exited?
  }

  /** Closing a closed queue panics. */
  function StopGate(g: Gate, t: Stopper, a: StopAction): Gate {
    match a
    case CallStop => g.(stoppers := g.stoppers[t := Starting])
    case AcquireWrite => g.(stoppers := g.stoppers[t := Testing])
    case TestAndSet =>
      if g.stopped then g.(stoppers := g.stoppers[t := Leaving(false)])
      else g.(stoppers := g.stoppers[t := Closing], stopped := true, closer := Some(t))
    case CloseQueue =>
      g.(stoppers := g.stoppers[t := Leaving(true)], closed := true, panicked := g.panicked || g.closed)
    case ReleaseWrite =>
      var closes := t in g.stoppers && g.stoppers[t] == Leaving(true);
      g.(stoppers := g.stoppers[t := if closes then Draining else Stopped(false)])
    case WaitDone => g.(stoppers := g.stoppers[t := Stopped(true)])
  }

  // ---- Steps of a worker ----

  datatype WorkAction = Receive | SampleTarget(rnd: real) | SendReturns(ok: bool)

  predicate WorkEnabled(x: Setup, closed: bool, f: Flow, crew: Crew, w: nat, a: WorkAction) {
    && w < |crew.workers|
    && match a
       case Receive => crew.workers[w].Receiving? && (f.queue != [] || closed)
       case SampleTarget(rnd) =>
         && crew.workers[w].Sampling? && 0.0 <= rnd < 1.0
         && crew.workers[w].k < |x.targets(crew.workers[w].job)| && crew.workers[w].job in crew.outcomes
       case SendReturns(_) => crew.workers[w].Sending? && crew.workers[w].job in crew.outcomes
  }

  /** Put worker `w` before target `k` of `job`; past the last one the job is complete. */
  function Advance(x: Setup, crew: Crew, w: nat, job: Call, k: nat): Crew
    requires w < |crew.workers|
  {
    if k < |x.targets(job)| then crew.(workers := crew.workers[w := Sampling(job, k)], hands := crew.hands[job := w])
    else
      crew.(workers := crew.workers[w := Receiving], hands := crew.hands - {job}, completed := crew.completed + {job})
  }

  /** The outcome of the current target, then the next one. */
  function Settle(x: Setup, crew: Crew, w: nat, outcome: Outcome): Crew
    requires w < |crew.workers| && crew.workers[w].Busy() && crew.workers[w].job in crew.outcomes
  {
    var job := crew.workers[w].job;
    Advance(x, crew.(outcomes := crew.outcomes[job := crew.outcomes[job] + [outcome]]), w, job, crew.workers[w].k + 1)
  }

  function WorkFlow(f: Flow, a: WorkAction): Flow {
    if a.Receive? && f.queue != [] then f.(queue := f.queue[1..], dequeued := f.dequeued + [f.queue[0]]) else f
  }

  function WorkCrew(x: Setup, closed: bool, f: Flow, crew: Crew, w: nat, a: WorkAction): Crew
    requires WorkEnabled(x, closed, f, crew, w, a)
  {
    match a
    case Receive =>
      if f.queue == [] then crew.(workers := crew.workers[w := Exited])
      else Advance(x, crew.(outcomes := crew.outcomes[f.queue[0] := []]), w, f.queue[0], 0)
    case SampleTarget(rnd) =>
      var job, k := crew.workers[w].job, crew.workers[w].k;
      if Sample(x.targets(job)[k], rnd) then crew.(workers := crew.workers[w := Sending(job, k)])
      else Settle(x, crew, w, Skipped)
    case SendReturns(ok) => Settle(x, crew, w, if ok then Sent else Failed)
  }

  /** The answers are recorded as they come, whatever the worker makes of them. */
  function Recorded(answers: Answers, pc: WorkerPc, a: WorkAction): Answers {
    if !pc.Busy() then answers
    else
      match a
      case Receive => answers
      case SampleTarget(rnd) => answers.(drawn := answers.drawn[(pc.job, pc.k) := rnd])
      case SendReturns(ok) => answers.(returned := answers.returned[(pc.job, pc.k) := ok])
  }

  // ---- Runs ----

  datatype Step =
    | Submit(c: Call, submit: SubmitAction)
    | Stop(t: Stopper, stop: StopAction)
    | Work(w: nat, work: WorkAction)

  ghost predicate Enabled(x: Setup, p: Pool, s: Step) {
    match s
    case Submit(c, a) => SubmitEnabled(p.gate, c, a)
    case Stop(t, a) => StopEnabled(p.gate, p.crew.workers, t, a)
    case Work(w, a) => WorkEnabled(x, p.gate.closed, p.flow, p.crew, w, a)
  }

  ghost function Apply(x: Setup, p: Pool, s: Step): Pool
    requires Enabled(x, p, s)
  {
    match s
    case Submit(c, a) => p.(gate := SubmitGate(x, p.gate, p.flow, c, a), flow := SubmitFlow(x, p.gate, p.flow, c, a))
    case Stop(t, a) => p.(gate := StopGate(p.gate, t, a))
    case Work(w, a) =>
      p.(flow := WorkFlow(p.flow, a), crew := WorkCrew(x, p.gate.closed, p.flow, p.crew, w, a),
         answers := Recorded(p.answers, p.crew.workers[w], a))
  }

  /** `end` is where these steps lead, each being enabled in its turn. */
  ghost predicate Run(x: Setup, start: Pool, steps: seq<Step>, end: Pool)
    decreases |steps|
  {
    if steps == [] then start == end
    else
      var last := steps[|steps| - 1];
      exists p :: Run(x, start, steps[..|steps| - 1], p) && Enabled(x, p, last) && end == Apply(x, p, last)
  }

  ghost predicate Reachable(x: Setup, p: Pool) {
    exists workers, steps :: Run(x, NewPool(workers), steps, p)
  }

  // ---- The lock protocol ----

  /** Readers and the writer exclude each other, and nobody past the test sees the pool stopped. */
  ghost predicate LockInv(g: Gate) {
    && (forall t, u | t in g.stoppers && u in g.stoppers && t != u ::
          !(g.stoppers[t].HoldsLock() && g.stoppers[u].HoldsLock()))
    && (forall t, c | t in g.stoppers && c in g.submitters ::
          !(g.stoppers[t].HoldsLock() && g.submitters[c].HoldsLock()))
    && (forall c | c in g.submitters && g.submitters[c].Passed? :: !g.stopped)
  }

  /** `stopped` has one author, and the queue is closed as soon as that call is past its close. */
  ghost predicate CloserInv(g: Gate) {
    && !g.panicked
    && (g.stopped <==> g.closer.Some?)
    && (g.closed ==> g.stopped)
    && (g.closer.Some? ==> g.closer.value in g.stoppers && g.stoppers[g.closer.value].IsCloser())
    && (g.closer.Some? ==> (g.closed <==> !g.stoppers[g.closer.value].Closing?))
    && (forall t | t in g.stoppers && g.stoppers[t].IsCloser() :: g.closer == Some(t))
    && (forall t | t in g.stoppers && (g.stoppers[t] == Leaving(false) || g.stoppers[t] == Stopped(false)) :: g.stopped)
  }

  lemma SubmitKeepsGate(x: Setup, g: Gate, f: Flow, c: Call, a: SubmitAction)
    requires LockInv(g) && CloserInv(g) && SubmitEnabled(g, c, a)
    ensures var g' := SubmitGate(x, g, f, c, a); LockInv(g') && CloserInv(g')
  {
  }

  lemma StopKeepsLocks(g: Gate, workers: seq<WorkerPc>, t: Stopper, a: StopAction)
    requires LockInv(g) && CloserInv(g) && StopEnabled(g, workers, t, a)
    ensures LockInv(StopGate(g, t, a))
  {
  }

  lemma StopKeepsCloser(g: Gate, workers: seq<WorkerPc>, t: Stopper, a: StopAction)
    requires LockInv(g) && CloserInv(g) && StopEnabled(g, workers, t, a)
    ensures CloserInv(StopGate(g, t, a))
  {
  }

  // ---- Jobs ----

  /** Every decided call is dropped or accepted, never both, and a drop saw the pool stopped or the
      queue full. */
  ghost predicate CallInv(x: Setup, submitters: map<Call, SubmitPc>, f: Flow) {
    && (forall c | c in f.accepted :: c in submitters && submitters[c].Decided() && submitters[c].accepted)
    && (forall c | c in f.drops :: c in submitters && submitters[c].Decided() && !submitters[c].accepted)
    && (forall c | c in submitters && submitters[c].Decided() ::
          if submitters[c].accepted then c in f.accepted else c in f.drops)
    && (forall c | c in f.drops :: f.drops[c].stopped || f.drops[c].queued == x.Capacity())
  }

  /** The queue holds what was accepted and not yet taken, in order, within its capacity. */
  ghost predicate QueueInv(x: Setup, f: Flow) {
    f.accepted == f.dequeued + f.queue && |f.queue| <= x.Capacity() && Distinct(f.accepted)
  }

  lemma SubmitKeepsCalls(x: Setup, g: Gate, f: Flow, c: Call, a: SubmitAction)
    requires LockInv(g) && CloserInv(g) && CallInv(x, g.submitters, f) && QueueInv(x, f) && SubmitEnabled(g, c, a)
    ensures CallInv(x, SubmitGate(x, g, f, c, a).submitters, SubmitFlow(x, g, f, c, a))
  {
  }

  lemma SubmitKeepsQueue(x: Setup, g: Gate, f: Flow, c: Call, a: SubmitAction)
    requires CallInv(x, g.submitters, f) && QueueInv(x, f) && SubmitEnabled(g, c, a)
    ensures QueueInv(x, SubmitFlow(x, g, f, c, a))
  {
  }

  lemma WorkKeepsQueue(x: Setup, f: Flow, a: WorkAction)
    requires QueueInv(x, f)
    ensures QueueInv(x, WorkFlow(f, a)) && WorkFlow(f, a).accepted == f.accepted && WorkFlow(f, a).drops == f.drops
  {
  }

  /** A taken job is complete or in the hand of the one worker that took it. */
  ghost predicate HandInv(x: Setup, dequeued: seq<Call>, crew: Crew) {
    && (forall c :: c in dequeued <==> c in crew.completed || c in crew.hands)
    && (forall c | c in crew.hands ::
          c !in crew.completed && 0 <= crew.hands[c] < |crew.workers| && crew.workers[crew.hands[c]].Holds(c))
    && (forall w | 0 <= w < |crew.workers| && crew.workers[w].Busy() ::
          && crew.workers[w].job in crew.hands && crew.hands[crew.workers[w].job] == w
          && crew.workers[w].k < |x.targets(crew.workers[w].job)|)
  }

  /** Workers leave only a closed and empty queue, and a draining `Stop` returns after all of them. */
  ghost predicate ExitInv(g: Gate, f: Flow, workers: seq<WorkerPc>) {
    && (forall w | 0 <= w < |workers| && workers[w].Exited? :: g.closed && f.queue == [])
    && (forall t | t in g.stoppers && g.stoppers[t] == Stopped(true) :: AllExited(workers))
  }

  ghost predicate AllExited(workers: seq<WorkerPc>) {
    forall w | 0 <= w < |workers| :: workers[w].Exited?
  }

  /** The outcomes of a job cover exactly the targets dealt with. */
  ghost predicate OutcomeInv(x: Setup, crew: Crew) {
    && (forall c | c in crew.outcomes :: |crew.outcomes[c]| <= |x.targets(c)|)
    && (forall c | c in crew.completed :: c in crew.outcomes && |crew.outcomes[c]| == |x.targets(c)|)
    && (forall w | 0 <= w < |crew.workers| && crew.workers[w].Busy() ::
          && crew.workers[w].job in crew.outcomes && |crew.outcomes[crew.workers[w].job]| == crew.workers[w].k
          && crew.workers[w].k < |x.targets(crew.workers[w].job)|)
  }

  /** A target was skipped, or is sent to, as its own random number says, and its outcome is how
      that very send returned. */
  predicate Agrees(ratio: real, outcome: Outcome, answers: Answers, c: Call, k: int) {
    && Chosen(ratio, outcome != Skipped, answers, c, k)
    && (outcome != Skipped ==> (c, k) in answers.returned && (outcome == Sent <==> answers.returned[(c, k)]))
  }

  predicate Chosen(ratio: real, chosen: bool, answers: Answers, c: Call, k: int) {
    && (c, k) in answers.drawn && 0.0 <= answers.drawn[(c, k)] < 1.0
    && (chosen <==> answers.drawn[(c, k)] < ratio)
  }

  ghost predicate JobAgrees(x: Setup, outcomes: seq<Outcome>, answers: Answers, c: Call)
    requires |outcomes| <= |x.targets(c)|
  {
    forall k | 0 <= k < |outcomes| :: Agrees(x.targets(c)[k], outcomes[k], answers, c, k)
  }

  ghost predicate AnswerInv(x: Setup, crew: Crew, answers: Answers)
    requires OutcomeInv(x, crew)
  {
    && (forall c | c in crew.outcomes :: JobAgrees(x, crew.outcomes[c], answers, c))
    && (forall w | 0 <= w < |crew.workers| && crew.workers[w].Sending? ::
          var job, k := crew.workers[w].job, crew.workers[w].k; Chosen(x.targets(job)[k], true, answers, job, k))
  }

  /** What `HandInv` says, except about `job` and the worker `w` it concerns. */
  ghost predicate OthersInHand(x: Setup, dequeued: seq<Call>, crew: Crew, w: nat, job: Call) {
    && (forall c | c != job :: c in dequeued <==> c in crew.completed || c in crew.hands)
    && (forall c | c in crew.hands && c != job ::
          && c !in crew.completed && crew.hands[c] != w
          && 0 <= crew.hands[c] < |crew.workers| && crew.workers[crew.hands[c]].Holds(c))
    && (forall v | 0 <= v < |crew.workers| && v != w && crew.workers[v].Busy() ::
          && crew.workers[v].job != job && crew.workers[v].job in crew.hands && crew.hands[crew.workers[v].job] == v
          && crew.workers[v].k < |x.targets(crew.workers[v].job)|)
  }

  lemma AdvanceKeepsHands(x: Setup, dequeued: seq<Call>, crew: Crew, w: nat, job: Call, k: nat)
    requires w < |crew.workers| && OthersInHand(x, dequeued, crew, w, job) && job in dequeued && job !in crew.completed
    ensures HandInv(x, dequeued, Advance(x, crew, w, job, k))
  {
  }

  lemma QueueHeadIsNew(x: Setup, f: Flow)
    requires QueueInv(x, f) && f.queue != []
    ensures f.queue[0] !in f.dequeued
  {
    forall i | 0 <= i < |f.dequeued| ensures f.dequeued[i] != f.queue[0] {
      assert f.accepted[i] == f.dequeued[i] && f.accepted[|f.dequeued|] == f.queue[0];
    }
  }

  lemma ReceiveKeepsHands(x: Setup, closed: bool, f: Flow, crew: Crew, w: nat)
    requires QueueInv(x, f) && HandInv(x, f.dequeued, crew) && WorkEnabled(x, closed, f, crew, w, Receive)
    ensures HandInv(x, WorkFlow(f, Receive).dequeued, WorkCrew(x, closed, f, crew, w, Receive))
  {
    if f.queue != [] {
      var job := f.queue[0];
      QueueHeadIsNew(x, f);
      AdvanceKeepsHands(x, f.dequeued + [job], crew.(outcomes := crew.outcomes[job := []]), w, job, 0);
    }
  }

  lemma SettleKeepsHands(x: Setup, dequeued: seq<Call>, crew: Crew, w: nat, outcome: Outcome)
    requires HandInv(x, dequeued, crew)
    requires w < |crew.workers| && crew.workers[w].Busy() && crew.workers[w].job in crew.outcomes
    ensures HandInv(x, dequeued, Settle(x, crew, w, outcome))
  {
  }

  lemma WorkKeepsHands(x: Setup, closed: bool, f: Flow, crew: Crew, w: nat, a: WorkAction)
    requires QueueInv(x, f) && HandInv(x, f.dequeued, crew) && WorkEnabled(x, closed, f, crew, w, a)
    ensures HandInv(x, WorkFlow(f, a).dequeued, WorkCrew(x, closed, f, crew, w, a))
  {
    match a
    case Receive => ReceiveKeepsHands(x, closed, f, crew, w);
    case SampleTarget(_) => SettleKeepsHands(x, f.dequeued, crew, w, Skipped);
    case SendReturns(ok) => SettleKeepsHands(x, f.dequeued, crew, w, if ok then Sent else Failed);
  }

  /** `OutcomeInv` may fail for worker `w` before: it holds once `w` stands before target `k` of its
      job, or has completed it. */
  lemma AdvanceKeepsOutcomes(x: Setup, crew: Crew, w: nat, job: Call, k: nat)
    requires w < |crew.workers| && job in crew.outcomes && |crew.outcomes[job]| == k <= |x.targets(job)|
    requires forall c | c in crew.outcomes :: |crew.outcomes[c]| <= |x.targets(c)|
    requires forall c | c in crew.completed :: c in crew.outcomes && |crew.outcomes[c]| == |x.targets(c)|
    requires forall v | 0 <= v < |crew.workers| && v != w && crew.workers[v].Busy() ::
               && crew.workers[v].job in crew.outcomes && |crew.outcomes[crew.workers[v].job]| == crew.workers[v].k
               && crew.workers[v].k < |x.targets(crew.workers[v].job)|
    ensures OutcomeInv(x, Advance(x, crew, w, job, k))
  {
  }

  lemma ReceiveKeepsOutcomes(x: Setup, closed: bool, f: Flow, crew: Crew, w: nat)
    requires QueueInv(x, f) && HandInv(x, f.dequeued, crew) && OutcomeInv(x, crew)
    requires WorkEnabled(x, closed, f, crew, w, Receive)
    ensures OutcomeInv(x, WorkCrew(x, closed, f, crew, w, Receive))
  {
    if f.queue != [] {
      QueueHeadIsNew(x, f);
      AdvanceKeepsOutcomes(x, crew.(outcomes := crew.outcomes[f.queue[0] := []]), w, f.queue[0], 0);
    }
  }

  lemma SettleKeepsOutcomes(x: Setup, dequeued: seq<Call>, crew: Crew, w: nat, outcome: Outcome)
    requires HandInv(x, dequeued, crew) && OutcomeInv(x, crew)
    requires w < |crew.workers| && crew.workers[w].Busy() && crew.workers[w].job in crew.outcomes
    ensures OutcomeInv(x, Settle(x, crew, w, outcome))
  {
    var job := crew.workers[w].job;
    var told := crew.outcomes[job := crew.outcomes[job] + [outcome]];
    AdvanceKeepsOutcomes(x, crew.(outcomes := told), w, job, crew.workers[w].k + 1);
  }

  lemma WorkKeepsOutcomes(x: Setup, closed: bool, f: Flow, crew: Crew, w: nat, a: WorkAction)
    requires QueueInv(x, f) && HandInv(x, f.dequeued, crew) && OutcomeInv(x, crew)
    requires WorkEnabled(x, closed, f, crew, w, a)
    ensures OutcomeInv(x, WorkCrew(x, closed, f, crew, w, a))
  {
    match a
    case Receive => ReceiveKeepsOutcomes(x, closed, f, crew, w);
    case SampleTarget(_) => SettleKeepsOutcomes(x, f.dequeued, crew, w, Skipped);
    case SendReturns(ok) => SettleKeepsOutcomes(x, f.dequeued, crew, w, if ok then Sent else Failed);
  }

  /** What is recorded about the current target of a worker concerns no settled target and no other
      worker. */
  lemma RecordKeepsAnswers(x: Setup, dequeued: seq<Call>, crew: Crew, answers: Answers, w: nat, a: WorkAction)
    requires HandInv(x, dequeued, crew) && OutcomeInv(x, crew) && AnswerInv(x, crew, answers)
    requires w < |crew.workers| && crew.workers[w].Busy()
    requires crew.workers[w].Sending? ==> !a.SampleTarget?
    ensures AnswerInv(x, crew, Recorded(answers, crew.workers[w], a))
  {
  }

  /** The outcome of the current target joins those that agree. */
  lemma SettleKeepsAnswers(x: Setup, crew: Crew, answers: Answers, w: nat, outcome: Outcome)
    requires OutcomeInv(x, crew) && AnswerInv(x, crew, answers)
    requires w < |crew.workers| && crew.workers[w].Busy()
    requires var job, k := crew.workers[w].job, crew.workers[w].k;
             Agrees(x.targets(job)[k], outcome, answers, job, k)
    requires OutcomeInv(x, Settle(x, crew, w, outcome))
    ensures AnswerInv(x, Settle(x, crew, w, outcome), answers)
  {
    var job := crew.workers[w].job;
    var q := Settle(x, crew, w, outcome);
    assert q.outcomes == crew.outcomes[job := crew.outcomes[job] + [outcome]];
    assert JobAgrees(x, q.outcomes[job], answers, job);
  }

  lemma WorkKeepsAnswers(x: Setup, closed: bool, f: Flow, crew: Crew, answers: Answers, w: nat, a: WorkAction)
    requires QueueInv(x, f) && HandInv(x, f.dequeued, crew) && OutcomeInv(x, crew) && AnswerInv(x, crew, answers)
    requires WorkEnabled(x, closed, f, crew, w, a) && OutcomeInv(x, WorkCrew(x, closed, f, crew, w, a))
    ensures AnswerInv(x, WorkCrew(x, closed, f, crew, w, a), Recorded(answers, crew.workers[w], a))
  {
    if !a.Receive? {
      var after := Recorded(answers, crew.workers[w], a);
      RecordKeepsAnswers(x, f.dequeued, crew, answers, w, a);
      match a
      case SampleTarget(rnd) =>
        if !Sample(x.targets(crew.workers[w].job)[crew.workers[w].k], rnd) {
          SettleKeepsAnswers(x, crew, after, w, Skipped);
        }
      case SendReturns(ok) => SettleKeepsAnswers(x, crew, after, w, if ok then Sent else Failed);
    }
  }

  ghost predicate Inv(x: Setup, p: Pool) {
    && |p.crew.workers| > 0
    && LockInv(p.gate) && CloserInv(p.gate)
    && CallInv(x, p.gate.submitters, p.flow) && QueueInv(x, p.flow)
    && HandInv(x, p.flow.dequeued, p.crew) && OutcomeInv(x, p.crew) && AnswerInv(x, p.crew, p.answers)
    && ExitInv(p.gate, p.flow, p.crew.workers)
  }

  lemma SubmitKeepsInv(x: Setup, p: Pool, c: Call, a: SubmitAction)
    requires Inv(x, p) && SubmitEnabled(p.gate, c, a)
    ensures Inv(x, Apply(x, p, Submit(c, a)))
  {
    SubmitKeepsGate(x, p.gate, p.flow, c, a);
    SubmitKeepsCalls(x, p.gate, p.flow, c, a);
    SubmitKeepsQueue(x, p.gate, p.flow, c, a);
  }

  lemma StopKeepsInv(x: Setup, p: Pool, t: Stopper, a: StopAction)
    requires Inv(x, p) && StopEnabled(p.gate, p.crew.workers, t, a)
    ensures Inv(x, Apply(x, p, Stop(t, a)))
  {
    StopKeepsLocks(p.gate, p.crew.workers, t, a);
    StopKeepsCloser(p.gate, p.crew.workers, t, a);
  }

  lemma WorkKeepsExits(x: Setup, p: Pool, w: nat, a: WorkAction)
    requires ExitInv(p.gate, p.flow, p.crew.workers) && WorkEnabled(x, p.gate.closed, p.flow, p.crew, w, a)
    ensures var q := Apply(x, p, Work(w, a)); ExitInv(q.gate, q.flow, q.crew.workers)
  {
  }

  lemma WorkKeepsInv(x: Setup, p: Pool, w: nat, a: WorkAction)
    requires Inv(x, p) && WorkEnabled(x, p.gate.closed, p.flow, p.crew, w, a)
    ensures Inv(x, Apply(x, p, Work(w, a)))
  {
    WorkKeepsQueue(x, p.flow, a);
    WorkKeepsHands(x, p.gate.closed, p.flow, p.crew, w, a);
    WorkKeepsOutcomes(x, p.gate.closed, p.flow, p.crew, w, a);
    WorkKeepsAnswers(x, p.gate.closed, p.flow, p.crew, p.answers, w, a);
    WorkKeepsExits(x, p, w, a);
  }

  lemma StepKeepsInv(x: Setup, p: Pool, s: Step)
    requires Inv(x, p) && Enabled(x, p, s)
    ensures Inv(x, Apply(x, p, s))
  {
    match s
    case Submit(c, a) => SubmitKeepsInv(x, p, c, a);
    case Stop(t, a) => StopKeepsInv(x, p, t, a);
    case Work(w, a) => WorkKeepsInv(x, p, w, a);
  }

  lemma {:induction false} RunKeepsInv(x: Setup, start: Pool, steps: seq<Step>, end: Pool)
    requires Inv(x, start) && Run(x, start, steps, end)
    ensures Inv(x, end)
    decreases |steps|
  {
    if steps != [] {
      var last, before := steps[|steps| - 1], steps[..|steps| - 1];
      var p :| Run(x, start, before, p) && Enabled(x, p, last) && end == Apply(x, p, last);
      RunKeepsInv(x, start, before, p);
      StepKeepsInv(x, p, last);
    }
  }

  lemma ReachableInv(x: Setup, p: Pool)
    requires Reachable(x, p)
    ensures Inv(x, p)
  {
    var workers, steps :| Run(x, NewPool(workers), steps, p);
    assert Inv(x, NewPool(workers));
    RunKeepsInv(x, NewPool(workers), steps, p);
  }

  // ---- Main results ----

  /** Nothing panics: a submitter past the test never meets a closed queue, a closing stopper never
      meets a closed queue, and outside the write lock `stopped` says exactly whether it is closed. */
  lemma PoolIsSafe(x: Setup, p: Pool)
    requires Reachable(x, p)
    ensures !p.gate.panicked
    ensures forall c | c in p.gate.submitters && p.gate.submitters[c].Passed? :: !p.gate.closed
    ensures forall t | t in p.gate.stoppers && p.gate.stoppers[t].Closing? :: !p.gate.closed
    ensures !Writing(p.gate) ==> (p.gate.stopped <==> p.gate.closed)
    ensures forall t, u | t in p.gate.stoppers && u in p.gate.stoppers ::
              p.gate.stoppers[t].IsCloser() && p.gate.stoppers[u].IsCloser() ==> t == u
  {
    ReachableInv(x, p);
    var g := p.gate;
    if g.stopped && !g.closed {
      var t := g.closer.value;
      assert t in g.stoppers && g.stoppers[t].HoldsLock();
      assert Writing(g);
    }
  }

  /** Job conservation: a decided call is dropped, queued, in a worker's hand or complete, and just
      one of these; no two workers hold the same job. */
  lemma JobsAreConserved(x: Setup, p: Pool)
    requires Reachable(x, p)
    ensures DecidedIn(p.gate.submitters)
         == p.flow.drops.Keys + Elements(p.flow.queue) + p.crew.hands.Keys + p.crew.completed
    ensures |DecidedIn(p.gate.submitters)| == |p.flow.drops| + |p.flow.queue| + |p.crew.hands| + |p.crew.completed|
    ensures forall c :: c in p.crew.hands <==> HeldBySome(p.crew.workers, c)
    ensures forall v, w, c | 0 <= v < w < |p.crew.workers| ::
              !(p.crew.workers[v].Holds(c) && p.crew.workers[w].Holds(c))
  {
    ReachableInv(x, p);
    HandsAreHeld(x, p.flow.dequeued, p.crew);
    Partition(x, p.gate.submitters, p.flow, p.crew);
    Regroup(p.flow.drops.Keys, p.crew.hands.Keys, p.crew.completed, Elements(p.flow.queue));
  }

  ghost predicate HeldBySome(workers: seq<WorkerPc>, c: Call) {
    exists w | 0 <= w < |workers| :: workers[w].Holds(c)
  }

  lemma HandsAreHeld(x: Setup, dequeued: seq<Call>, crew: Crew)
    requires HandInv(x, dequeued, crew)
    ensures forall c :: c in crew.hands <==> HeldBySome(crew.workers, c)
    ensures forall v, w, c | 0 <= v < w < |crew.workers| :: !(crew.workers[v].Holds(c) && crew.workers[w].Holds(c))
  {
  }

  lemma Regroup<T>(a: set<T>, b: set<T>, c: set<T>, d: set<T>)
    ensures a + ((b + c) + d) == a + d + b + c
  {
  }

  lemma Partition(x: Setup, submitters: map<Call, SubmitPc>, f: Flow, crew: Crew)
    requires CallInv(x, submitters, f) && QueueInv(x, f) && HandInv(x, f.dequeued, crew)
    ensures DecidedIn(submitters) == f.drops.Keys + ((crew.hands.Keys + crew.completed) + Elements(f.queue))
    ensures |DecidedIn(submitters)| == |f.drops| + |f.queue| + |crew.hands| + |crew.completed|
  {
    TakenJobs(x, f.dequeued, crew);
    SplitElements(f.accepted, f.dequeued, f.queue);
    DecidedCalls(x, submitters, f);
  }

  /** Jobs leave in the order they came, each once, and a drop has a reason. */
  lemma QueueIsFifo(x: Setup, p: Pool)
    requires Reachable(x, p)
    ensures p.flow.accepted == p.flow.dequeued + p.flow.queue && Distinct(p.flow.accepted)
    ensures var capacity := if x.queueSize > 0 then x.queueSize else 100;
            && |p.flow.queue| <= capacity
            && forall c | c in p.flow.drops :: p.flow.drops[c].stopped || p.flow.drops[c].queued == capacity
  {
    ReachableInv(x, p);
  }

  /** A call is turned away at the test exactly when the pool is stopped, and at the queue exactly when
      that is full; otherwise its job goes to the end of the queue. */
  lemma SubmitDecides(x: Setup, p: Pool, c: Call)
    requires Reachable(x, p)
    ensures Enabled(x, p, Submit(c, TestStopped)) ==>
              var q := Apply(x, p, Submit(c, TestStopped));
              q.flow.queue == p.flow.queue && (q.gate.submitters[c].Decided() <==> p.gate.stopped)
              && (p.gate.stopped ==> q.flow.drops == p.flow.drops[c := Drop(true, |p.flow.queue|)])
    ensures Enabled(x, p, Submit(c, Select)) ==>
              var q := Apply(x, p, Submit(c, Select));
              if |p.flow.queue| < (if x.queueSize > 0 then x.queueSize else 100)
              then q.flow.queue == p.flow.queue + [c] && q.flow.drops == p.flow.drops
              else q.flow.queue == p.flow.queue && q.flow.drops == p.flow.drops[c := Drop(false, |p.flow.queue|)]
  {
    ReachableInv(x, p);
  }

  /** The pool keeps the workers it was made with. */
  lemma {:induction false} WorkersStay(x: Setup, workers: int, steps: seq<Step>, p: Pool)
    requires Run(x, NewPool(workers), steps, p)
    ensures |p.crew.workers| == if workers > 0 then workers else 10
    decreases |steps|
  {
    if steps != [] {
      var last, before := steps[|steps| - 1], steps[..|steps| - 1];
      var q :| Run(x, NewPool(workers), before, q) && Enabled(x, q, last) && p == Apply(x, q, last);
      WorkersStay(x, workers, before, q);
    }
  }

  lemma TakenJobs(x: Setup, dequeued: seq<Call>, crew: Crew)
    requires HandInv(x, dequeued, crew)
    ensures Elements(dequeued) == crew.hands.Keys + crew.completed
    ensures |Elements(dequeued)| == |crew.hands| + |crew.completed|
  {
    var held := crew.hands.Keys;
    forall c ensures c in Elements(dequeued) <==> c in held || c in crew.completed {
      assert c in held <==> c in crew.hands;
    }
    forall c | c in held ensures c !in crew.completed {
      assert c in crew.hands;
    }
    assert held !! crew.completed && Elements(dequeued) == held + crew.completed;
  }

  /** The calls that have decided. */
  ghost function DecidedIn(submitters: map<Call, SubmitPc>): set<Call> {
    set c | c in submitters && submitters[c].Decided()
  }

  lemma DecidedCalls(x: Setup, submitters: map<Call, SubmitPc>, f: Flow)
    requires CallInv(x, submitters, f)
    ensures DecidedIn(submitters) == f.drops.Keys + Elements(f.accepted)
    ensures |DecidedIn(submitters)| == |f.drops| + |Elements(f.accepted)|
  {
    DroppedOrAccepted(x, submitters, f, f.drops.Keys, Elements(f.accepted), DecidedIn(submitters));
  }

  lemma DroppedOrAccepted(
    x: Setup, submitters: map<Call, SubmitPc>, f: Flow, dropped: set<Call>, accepted: set<Call>, decided: set<Call>)
    requires CallInv(x, submitters, f)
    requires dropped == f.drops.Keys && accepted == Elements(f.accepted) && decided == DecidedIn(submitters)
    ensures decided == dropped + accepted && dropped !! accepted
  {
    forall c ensures c in dropped ==> c !in accepted {
      assert c in dropped <==> c in f.drops;
    }
    forall c ensures c in decided <==> c in dropped || c in accepted {
      assert c in dropped <==> c in f.drops;
      assert c in accepted <==> c in f.accepted;
    }
  }

  /** The two halves of a sequence without repetition share nothing. */
  lemma SplitElements(whole: seq<Call>, taken: seq<Call>, left: seq<Call>)
    requires whole == taken + left && Distinct(whole)
    ensures Elements(whole) == Elements(taken) + Elements(left) && Elements(taken) !! Elements(left)
    ensures |Elements(whole)| == |Elements(taken)| + |left|
  {
    assert forall i | 0 <= i < |taken| :: whole[i] == taken[i];
    assert forall i | 0 <= i < |left| :: whole[|taken| + i] == left[i];
    assert Distinct(left);
    DistinctCardinality(left);
  }

  /** A settled target was sent to exactly when its random number lies below its ratio, and counts as
      sent exactly when that send returned without an error. */
  lemma OutcomesAreAsDrawn(x: Setup, p: Pool, c: Call, k: int)
    requires Reachable(x, p) && c in p.crew.outcomes && 0 <= k < |p.crew.outcomes[c]|
    ensures k < |x.targets(c)|
    ensures (c, k) in p.answers.drawn && 0.0 <= p.answers.drawn[(c, k)] < 1.0
    ensures p.crew.outcomes[c][k] != Skipped <==> p.answers.drawn[(c, k)] < x.targets(c)[k]
    ensures p.crew.outcomes[c][k] != Skipped ==>
              (c, k) in p.answers.returned && (p.crew.outcomes[c][k] == Sent <==> p.answers.returned[(c, k)])
  {
    ReachableInv(x, p);
    assert JobAgrees(x, p.crew.outcomes[c], p.answers, c);
    assert Agrees(x.targets(c)[k], p.crew.outcomes[c][k], p.answers, c, k);
  }

  /** Every target of a complete job was skipped, sent or failed exactly once; ratio 0 or less is
      always skipped and ratio 1 or more never. */
  lemma TargetsAreSettledOnce(x: Setup, p: Pool, c: Call)
    requires Reachable(x, p) && c in p.crew.completed
    ensures c in p.crew.outcomes && |p.crew.outcomes[c]| == |x.targets(c)|
    ensures forall k | 0 <= k < |x.targets(c)| ::
              && (x.targets(c)[k] <= 0.0 ==> p.crew.outcomes[c][k] == Skipped)
              && (x.targets(c)[k] >= 1.0 ==> p.crew.outcomes[c][k] != Skipped)
  {
    ReachableInv(x, p);
    forall k | 0 <= k < |x.targets(c)|
      ensures x.targets(c)[k] <= 0.0 ==> p.crew.outcomes[c][k] == Skipped
      ensures x.targets(c)[k] >= 1.0 ==> p.crew.outcomes[c][k] != Skipped
    {
      OutcomesAreAsDrawn(x, p, c, k);
    }
  }

  /** When the `Stop` that closed the queue has returned, every accepted job is complete. */
  lemma StopDrains(x: Setup, p: Pool, t: Stopper)
    requires Reachable(x, p) && t in p.gate.stoppers && p.gate.stoppers[t] == Stopped(true)
    ensures p.flow.queue == [] && AllExited(p.crew.workers) && p.crew.hands == map[]
    ensures p.crew.completed == Elements(p.flow.accepted)
  {
    ReachableInv(x, p);
    assert AllExited(p.crew.workers) && p.crew.workers[0].Exited?;
    NobodyHolds(x, p.flow.dequeued, p.crew);
    forall c ensures c in p.crew.completed <==> c in p.flow.accepted {
      assert p.flow.accepted == p.flow.dequeued;
      assert c in p.flow.dequeued <==> c in p.crew.completed || c in p.crew.hands;
    }
  }

  lemma NobodyHolds(x: Setup, dequeued: seq<Call>, crew: Crew)
    requires HandInv(x, dequeued, crew) && AllExited(crew.workers)
    ensures crew.hands == map[]
  {
    forall c ensures c !in crew.hands {}
  }

  // ---- Draining makes progress ----

  lemma OneMore(x: Setup, p: Pool, s: Step, q: Pool)
    requires Reachable(x, p) && Enabled(x, p, s) && q == Apply(x, p, s)
    ensures Reachable(x, q)
  {
    var workers, steps :| Run(x, NewPool(workers), steps, p);
    var steps' := steps + [s];
    assert steps'[..|steps'| - 1] == steps;
    assert Run(x, NewPool(workers), steps'[..|steps'| - 1], p) && steps'[|steps'| - 1] == s;
    assert Run(x, NewPool(workers), steps', q);
  }

  lemma {:induction false} ReachableOn(x: Setup, start: Pool, steps: seq<Step>, end: Pool)
    requires Reachable(x, start) && Run(x, start, steps, end)
    ensures Reachable(x, end)
    decreases |steps|
  {
    if steps != [] {
      var last, before := steps[|steps| - 1], steps[..|steps| - 1];
      var p :| Run(x, start, before, p) && Enabled(x, p, last) && end == Apply(x, p, last);
      ReachableOn(x, start, before, p);
      OneMore(x, p, last, end);
    }
  }

  /** Work left for a worker. */
  function WorkerLoad(x: Setup, pc: WorkerPc): nat {
    match pc
    case Receiving => 1
    case Sampling(job, k) => 2 + if k < |x.targets(job)| then 2 * (|x.targets(job)| - k) else 0
    case Sending(job, k) => 1 + if k < |x.targets(job)| then 2 * (|x.targets(job)| - k) else 0
    case Exited => 0
  }

  function CrewLoad(x: Setup, workers: seq<WorkerPc>): nat {
    if workers == [] then 0 else WorkerLoad(x, workers[0]) + CrewLoad(x, workers[1..])
  }

  function QueueLoad(x: Setup, queue: seq<Call>): nat {
    if queue == [] then 0 else 2 + 2 * |x.targets(queue[0])| + QueueLoad(x, queue[1..])
  }

  function Load(x: Setup, p: Pool): nat {
    QueueLoad(x, p.flow.queue) + CrewLoad(x, p.crew.workers)
  }

  lemma {:induction false} CrewLoadUpdate(x: Setup, workers: seq<WorkerPc>, w: nat, pc: WorkerPc)
    requires w < |workers|
    ensures CrewLoad(x, workers[w := pc]) + WorkerLoad(x, workers[w]) == CrewLoad(x, workers) + WorkerLoad(x, pc)
  {
    if w > 0 {
      assert workers[w := pc][1..] == workers[1..][w - 1 := pc];
      CrewLoadUpdate(x, workers[1..], w - 1, pc);
    } else {
      assert workers[w := pc][1..] == workers[1..];
    }
  }

  /** Every step of a worker does some of the work left, with no help from the others. */
  lemma WorkStepLowersLoad(x: Setup, p: Pool, w: nat, a: WorkAction)
    requires Reachable(x, p) && Enabled(x, p, Work(w, a))
    ensures Load(x, Apply(x, p, Work(w, a))) < Load(x, p)
  {
    ReachableInv(x, p);
    var q := Apply(x, p, Work(w, a));
    assert q.crew.workers == p.crew.workers[w := q.crew.workers[w]];
    CrewLoadUpdate(x, p.crew.workers, w, q.crew.workers[w]);
  }

  /** Once the queue is closed nothing adds work. */
  lemma ClosedPoolOnlyDrains(x: Setup, p: Pool, s: Step)
    requires Reachable(x, p) && p.gate.closed && Enabled(x, p, s)
    ensures Apply(x, p, s).gate.closed
    ensures Load(x, Apply(x, p, s)) <= Load(x, p) - if s.Work? then 1 else 0
  {
    ReachableInv(x, p);
    if s.Work? { WorkStepLowersLoad(x, p, s.w, s.work); }
  }

  /** Every worker still there can take a step. */
  lemma NoWorkerIsStuck(x: Setup, p: Pool, w: nat)
    requires Reachable(x, p) && p.gate.closed && w < |p.crew.workers| && !p.crew.workers[w].Exited?
    ensures exists a :: Enabled(x, p, Work(w, a))
  {
    ReachableInv(x, p);
    var a := match p.crew.workers[w]
      case Receiving => Receive
      case Sampling(_, _) => SampleTarget(0.0)
      case _ => SendReturns(true);
    assert Enabled(x, p, Work(w, a));
  }

  function WorkSteps(steps: seq<Step>): nat {
    if steps == [] then 0
    else WorkSteps(steps[..|steps| - 1]) + if steps[|steps| - 1].Work? then 1 else 0
  }

  /** A closed pool drains within a number of worker steps fixed when it was closed, whatever the
      interleaving. */
  lemma {:induction false} DrainIsBounded(x: Setup, start: Pool, steps: seq<Step>, end: Pool)
    requires Reachable(x, start) && start.gate.closed && Run(x, start, steps, end)
    ensures end.gate.closed && WorkSteps(steps) + Load(x, end) <= Load(x, start)
    decreases |steps|
  {
    if steps != [] {
      var last, before := steps[|steps| - 1], steps[..|steps| - 1];
      var p :| Run(x, start, before, p) && Enabled(x, p, last) && end == Apply(x, p, last);
      DrainIsBounded(x, start, before, p);
      ReachableOn(x, start, before, p);
      ClosedPoolOnlyDrains(x, p, last);
    }
  }

  /** When the workers of a closed pool have no step left, they are all gone, nothing is queued, and
      the `Stop` that drains the pool can return. */
  lemma DrainEnds(x: Setup, p: Pool)
    requires Reachable(x, p) && p.gate.closed && forall w, a :: !Enabled(x, p, Work(w, a))
    ensures AllExited(p.crew.workers) && p.flow.queue == []
    ensures forall t | t in p.gate.stoppers && p.gate.stoppers[t].Draining? :: Enabled(x, p, Stop(t, WaitDone))
  {
    ReachableInv(x, p);
    forall w: nat | w < |p.crew.workers| ensures p.crew.workers[w].Exited? {
      if !p.crew.workers[w].Exited? { NoWorkerIsStuck(x, p, w); }
    }
    assert p.crew.workers[0].Exited?;
  }

  // ---- A second Stop does not wait ----

  function Moment(
    stopped: bool, closed: bool, submitters: map<Call, SubmitPc>, stoppers: map<Stopper, StopPc>,
    queue: seq<Call>): Pool
  {
    Pool(Gate(stopped, closed, if stopped then Some(0) else None, submitters, stoppers, false),
         Flow(queue, queue, [], map[]), Crew([Receiving], map[], {}, map[]), Answers(map[], map[]))
  }

  lemma OneJobQueued(x: Setup)
    ensures Reachable(x, Moment(false, false, map[0 := Submitted(true)], map[], [0]))
  {
    var p0 := Moment(false, false, map[], map[], []);
    assert NewPool(1) == p0;
    assert Run(x, NewPool(1), [], p0);
    var p1 := Moment(false, false, map[0 := Waiting], map[], []);
    OneMore(x, p0, Submit(0, CallSubmit), p1);
    var p2 := Moment(false, false, map[0 := Locked], map[], []);
    OneMore(x, p1, Submit(0, AcquireRead), p2);
    var p3 := Moment(false, false, map[0 := Passed], map[], []);
    OneMore(x, p2, Submit(0, TestStopped), p3);
    var p4 := Moment(false, false, map[0 := Unlocking(true)], map[], [0]);
    OneMore(x, p3, Submit(0, Select), p4);
    OneMore(x, p4, Submit(0, ReleaseRead), Moment(false, false, map[0 := Submitted(true)], map[], [0]));
  }

  lemma FirstStopDrains(x: Setup)
    ensures Reachable(x, Moment(true, true, map[0 := Submitted(true)], map[0 := Draining], [0]))
  {
    OneJobQueued(x);
    var done := map[0 := Submitted(true)];
    var p0, p1 := Moment(false, false, done, map[], [0]), Moment(false, false, done, map[0 := Starting], [0]);
    OneMore(x, p0, Stop(0, CallStop), p1);
    var p2 := Moment(false, false, done, map[0 := Testing], [0]);
    OneMore(x, p1, Stop(0, AcquireWrite), p2);
    var p3 := Moment(true, false, done, map[0 := Closing], [0]);
    OneMore(x, p2, Stop(0, TestAndSet), p3);
    var p4 := Moment(true, true, done, map[0 := Leaving(true)], [0]);
    OneMore(x, p3, Stop(0, CloseQueue), p4);
    OneMore(x, p4, Stop(0, ReleaseWrite), Moment(true, true, done, map[0 := Draining], [0]));
  }

  /** While the first `Stop` drains, a second one can return with a job still queued. */
  lemma SecondStopMayReturnEarly(x: Setup) returns (p: Pool)
    ensures Reachable(x, p)
    ensures 1 in p.gate.stoppers && p.gate.stoppers[1] == Stopped(false) && p.flow.queue != []
  {
    FirstStopDrains(x);
    var done := map[0 := Submitted(true)];
    var p0 := Moment(true, true, done, map[0 := Draining], [0]);
    var p1 := Moment(true, true, done, map[0 := Draining, 1 := Starting], [0]);
    OneMore(x, p0, Stop(1, CallStop), p1);
    var p2 := Moment(true, true, done, map[0 := Draining, 1 := Testing], [0]);
    OneMore(x, p1, Stop(1, AcquireWrite), p2);
    var p3 := Moment(true, true, done, map[0 := Draining, 1 := Leaving(false)], [0]);
    OneMore(x, p2, Stop(1, TestAndSet), p3);
    p := Moment(true, true, done, map[0 := Draining, 1 := Stopped(false)], [0]);
    OneMore(x, p3, Stop(1, ReleaseWrite), p);
  }
}
