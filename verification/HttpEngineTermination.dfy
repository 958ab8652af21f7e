/** Every Resume cycle comes to an end: the goroutines are never stuck, and they run out of steps. */
module HttpEngineTermination {
  import opened HttpEngine
  import opened HttpEngineEffort
  import opened HttpEngineSafety
  import opened HttpEngineTheorems
  import opened Segments
  import opened Wrappers

  /** The action is a step of the runner or of a segment goroutine. */
  predicate OfEngine(a: Action) {
    a.OfWorker? || a.OfRunner?
  }

  /** A read that yields nothing and does not end the body. */
  predicate EmptyRead(a: Action) {
    a.OfWorker? && a.worker == Read(0, More)
  }

  // ---------------------------------------------------------------- how many steps are left

  /** Steps of one attempt, at most. */
  function AttemptSteps(c: Config): nat {
    5 * |c.payload| + 10
  }

  /** Steps a goroutine still has before it returns, at most, when it is in attempt `k` and needs `here` to end it. */
  function Later(c: Config, k: nat, here: int): int {
    (c.maxRetry - k) * AttemptSteps(c) + here
  }

  function WorkerSteps(c: Config, w: Worker): int {
    match w
    case Idle => 0
    case Done => 0
    case Asking(k) => Later(c, k, AttemptSteps(c))
    case Asked(k, _) => Later(c, k, AttemptSteps(c) - 1)
    case Reading(k, o) => Later(c, k, 5 * (|c.payload| - o) + 8)
    case Wrote(k, o, n, _) => Later(c, k, 5 * (|c.payload| - o - n) + 12)
    case Counted(k, o, n, _) => Later(c, k, 5 * (|c.payload| - o - n) + 11)
    case Published(k, o, _, _) => Later(c, k, 5 * (|c.payload| - o) + 10)
    case Settling(k, o, after) => Later(c, k, if after.More? then 5 * (|c.payload| - o) + 9 else 4)
    case Failed(k, _) => Later(c, k, 3)
    case Backoff(k) => Later(c, k, 2)
  }

  function AllWorkerSteps(c: Config, workers: seq<Worker>): int {
    if workers == [] then 0 else WorkerSteps(c, workers[0]) + AllWorkerSteps(c, workers[1..])
  }

  /** Steps to launch one goroutine and see it return. */
  function GoroutineSteps(c: Config): nat {
    (c.maxRetry + 1) * AttemptSteps(c) + 1
  }

  /** Steps that `left` mirrors can take, for at most `n` segments. */
  function MirrorSteps(c: Config, n: nat, left: int): int {
    left * (n * GoroutineSteps(c) + 4)
  }

  /** Steps that probing `left` mirrors can take. */
  function ProbeSteps(c: Config, left: int): int {
    left * (2 * c.maxRetry + 4)
  }

  function RunnerSteps(c: Config, n: nat, r: Runner): int {
    match r
    case NoRunner => 0
    case Finalizing => 1
    case Waiting(u) => MirrorSteps(c, n, c.mirrors - u - 1) + 3
    case Launching(u, next) => MirrorSteps(c, n, c.mirrors - u - 1) + 4 + (n - next) * GoroutineSteps(c)
    case Mirror(u) => MirrorSteps(c, n, c.mirrors - u) + 2
    case Saving(_) => MirrorSteps(c, n, c.mirrors) + 3
    case Allocating => MirrorSteps(c, n, c.mirrors) + 4
    case ProbeBackoff(u, k) => MirrorSteps(c, n, c.mirrors) + 5 + ProbeSteps(c, c.mirrors - u) - 2 * k - 1
    case Probing(u, k) => MirrorSteps(c, n, c.mirrors) + 5 + ProbeSteps(c, c.mirrors - u) - 2 * k
    case Starting => MirrorSteps(c, n, c.mirrors) + 6 + ProbeSteps(c, c.mirrors)
  }

  /** Steps left in the Resume cycle, at most, for plans of up to `n` segments. */
  function StepsLeft(c: Config, n: nat, s: State): int {
    RunnerSteps(c, n, s.runner) + AllWorkerSteps(c, s.workers)
  }

  /** `n` bounds the plan in memory and every plan a probe could make. */
  predicate PlanFits(c: Config, n: nat, s: State) {
    |s.segments| <= n && Max(c.maxConn, 1) <= n
  }

  // ---------------------------------------------------------------- the bounds are natural numbers

  lemma Product(a: int, b: int)
    requires a >= 0 && b >= 0
    ensures a * b >= 0
  {
  }

  lemma OneMore(a: int, b: int)
    ensures (a + 1) * b == a * b + b
  {
  }

  /** A goroutine within its retries and inside the payload has a non-negative number of steps left. */
  lemma WorkerStepsBound(c: Config, w: Worker)
    requires WithinRetries(c, w) && InPayload(c, w)
    ensures 0 <= WorkerSteps(c, w)
  {
    if !w.Idle? && !w.Done? {
      Product(c.maxRetry - w.attempt, AttemptSteps(c));
    }
  }

  predicate InPayload(c: Config, w: Worker) {
    match w
    case Reading(_, o) => o <= |c.payload|
    case Wrote(_, o, n, _) => o + n <= |c.payload|
    case Counted(_, o, n, _) => o + n <= |c.payload|
    case Published(_, o, _, _) => o <= |c.payload|
    case Settling(_, o, _) => o <= |c.payload|
    case _ => true
  }

  lemma WorkerInPayload(c: Config, s: State, i: nat)
    requires Inv(c, s) && i < |s.workers|
    ensures InPayload(c, s.workers[i])
  {
    var seg := s.segments[i];
    assert WorkerOk(c, s.file, s.failure, s.cancelled, seg, s.workers[i]);
    LimitInPayload(c, s, i);
  }

  lemma LimitInPayload(c: Config, s: State, i: nat)
    requires s.segments != [] && Layout(c, s.total, s.ranged, s.segments) && i < |s.segments|
    ensures s.segments[i].current <= Limit(c, s.segments[i]) <= |c.payload|
  {
    var last := |s.segments| - 1;
    if Bounded(s.total, s.ranged) && i < last {
      SegmentsAscend(s.segments, s.total, i, last);
    }
  }

  lemma {:induction false} AllStepsBound(c: Config, workers: seq<Worker>)
    requires forall i :: 0 <= i < |workers| ==> WithinRetries(c, workers[i]) && InPayload(c, workers[i])
    ensures 0 <= AllWorkerSteps(c, workers)
  {
    if workers != [] {
      WorkerStepsBound(c, workers[0]);
      assert forall i :: 0 <= i < |workers| - 1 ==> workers[1..][i] == workers[i + 1];
      AllStepsBound(c, workers[1..]);
    }
  }

  lemma {:induction false} StepsUpdate(c: Config, workers: seq<Worker>, i: nat, w: Worker)
    requires i < |workers|
    ensures AllWorkerSteps(c, workers[i := w]) == AllWorkerSteps(c, workers) - WorkerSteps(c, workers[i]) + WorkerSteps(c, w)
  {
    if i == 0 {
      assert workers[0 := w][1..] == workers[1..];
    } else {
      assert workers[i := w][1..] == workers[1..][i - 1 := w];
      StepsUpdate(c, workers[1..], i - 1, w);
    }
  }

  lemma {:induction false} RestingSteps(c: Config, workers: seq<Worker>)
    requires forall i :: 0 <= i < |workers| ==> workers[i].Idle? || workers[i].Done?
    ensures AllWorkerSteps(c, workers) == 0
  {
    if workers != [] {
      assert forall i :: 0 <= i < |workers| - 1 ==> workers[1..][i] == workers[i + 1];
      RestingSteps(c, workers[1..]);
    }
  }

  lemma StepsLeftBound(c: Config, n: nat, s: State)
    requires Inv(c, s) && Frugal(c, s) && PlanFits(c, n, s)
    ensures StepsLeft(c, n, s) >= 0
  {
    forall i | 0 <= i < |s.workers| ensures InPayload(c, s.workers[i]) {
      WorkerInPayload(c, s, i);
    }
    AllStepsBound(c, s.workers);
    RunnerStepsBound(c, n, s);
  }

  lemma RunnerStepsBound(c: Config, n: nat, s: State)
    requires RunnerOk(c, s) && Frugal(c, s) && |s.workers| <= n
    ensures RunnerSteps(c, n, s.runner) >= 0
  {
    var r := s.runner;
    Product(n, GoroutineSteps(c));
    var left := if r.Mirror? then c.mirrors - r.url else if r.Waiting? || r.Launching? then c.mirrors - r.url - 1 else c.mirrors;
    Product(left, n * GoroutineSteps(c) + 4);
    if r.Launching? {
      Product(n - r.next, GoroutineSteps(c));
    } else if r.Probing? || r.ProbeBackoff? {
      OneMore(c.mirrors - r.url - 1, 2 * c.maxRetry + 4);
      Product(c.mirrors - r.url - 1, 2 * c.maxRetry + 4);
    } else if r.Starting? {
      Product(c.mirrors, 2 * c.maxRetry + 4);
    }
  }

  // ---------------------------------------------------------------- every step uses one up

  /** What a worker event may do to the steps left: one is used, except that an empty read gives one back. */
  ghost predicate Spends(c: Config, s: State, i: nat, e: WorkerEvent, t: State) {
    && i < |s.workers| == |t.workers| && t.workers == s.workers[i := t.workers[i]]
    && t.runner == s.runner && |t.segments| == |s.segments|
    && WorkerSteps(c, t.workers[i]) < WorkerSteps(c, s.workers[i]) + if e == Read(0, More) then 2 else 0
  }

  /** Later attempts cost what they cost, whatever is left of this one. */
  lemma LaterIsPositive(c: Config, w: Worker)
    requires !w.Idle? && !w.Done? && WithinRetries(c, w)
    ensures Later(c, w.attempt, 0) >= 0
  {
    Product(c.maxRetry - w.attempt, AttemptSteps(c));
  }

  lemma RequestSpends(c: Config, s: State, i: nat, e: WorkerEvent, t: State)
    requires i < |s.workers| && WorkerStep(c, s, i, e) == Some(t) && (e.Ask? || e.Accept? || e.Refuse?)
    requires s.workers[i].Asked? ==> s.workers[i].offset >= 0
    ensures Spends(c, s, i, e, t)
  {
  }

  lemma ReadSpends(c: Config, s: State, i: nat, e: WorkerEvent, t: State)
    requires i < |s.workers| && WorkerStep(c, s, i, e) == Some(t) && (e.Read? || e.WriteFault?)
    ensures Spends(c, s, i, e, t)
  {
  }

  lemma ChunkSpends(c: Config, s: State, i: nat, e: WorkerEvent, t: State)
    requires i < |s.workers| && InPayload(c, s.workers[i]) && WorkerStep(c, s, i, e) == Some(t)
    requires e.Count? || e.Publish? || e.Save?
    ensures Spends(c, s, i, e, t)
  {
  }

  lemma CheckSpends(c: Config, s: State, i: nat, t: State)
    requires i < |s.workers| && InPayload(c, s.workers[i]) && WithinRetries(c, s.workers[i])
    requires WorkerStep(c, s, i, Check) == Some(t)
    ensures Spends(c, s, i, Check, t)
  {
    LaterIsPositive(c, s.workers[i]);
  }

  lemma RetrySpends(c: Config, s: State, i: nat, e: WorkerEvent, t: State)
    requires i < |s.workers| && WithinRetries(c, s.workers[i])
    requires WorkerStep(c, s, i, e) == Some(t) && (e.Retry? || e.Wake? || e.GiveUp?)
    ensures Spends(c, s, i, e, t)
  {
    var k := s.workers[i].attempt;
    LaterIsPositive(c, s.workers[i]);
    OneMore(c.maxRetry - k - 1, AttemptSteps(c));
  }

  lemma WorkerSpends(c: Config, s: State, i: nat, e: WorkerEvent, t: State)
    requires Inv(c, s) && Frugal(c, s) && WorkerStep(c, s, i, e) == Some(t)
    ensures Spends(c, s, i, e, t)
  {
    WorkerInPayload(c, s, i);
    assert WithinRetries(c, s.workers[i]);
    match e {
      case Ask => RequestSpends(c, s, i, e, t);
      case Accept => AskedOffset(c, s, i); RequestSpends(c, s, i, e, t);
      case Refuse(_) => AskedOffset(c, s, i); RequestSpends(c, s, i, e, t);
      case Read(_, _) => ReadSpends(c, s, i, e, t);
      case WriteFault(_) => ReadSpends(c, s, i, e, t);
      case Check => CheckSpends(c, s, i, t);
      case Retry => RetrySpends(c, s, i, e, t);
      case Wake => RetrySpends(c, s, i, e, t);
      case GiveUp => RetrySpends(c, s, i, e, t);
      case _ => ChunkSpends(c, s, i, e, t);
    }
  }

  lemma AskedOffset(c: Config, s: State, i: nat)
    requires Inv(c, s) && i < |s.workers| && s.workers[i].Asked?
    ensures s.workers[i].offset >= 0
  {
    InvIsLocal(c, s, i);
  }

  lemma WorkerStepsDown(c: Config, n: nat, s: State, i: nat, e: WorkerEvent, t: State)
    requires Inv(c, s) && Frugal(c, s) && PlanFits(c, n, s) && WorkerStep(c, s, i, e) == Some(t)
    ensures PlanFits(c, n, t) && StepsLeft(c, n, t) < StepsLeft(c, n, s) + if e == Read(0, More) then 2 else 0
  {
    WorkerSpends(c, s, i, e, t);
    StepsUpdate(c, s.workers, i, t.workers[i]);
  }

  /** The runner takes its next mirror, or fails: either way one step and the mirror are used up. */
  lemma NextMirrorStepsDown(c: Config, n: nat, s: State, url: nat)
    requires url < c.mirrors
    ensures RunnerSteps(c, n, NextMirror(c, s, url).runner) <= MirrorSteps(c, n, c.mirrors - url - 1) + 2
    ensures MirrorSteps(c, n, c.mirrors - url - 1) >= 0
    ensures MirrorSteps(c, n, c.mirrors - url) == MirrorSteps(c, n, c.mirrors - url - 1) + n * GoroutineSteps(c) + 4
    ensures n * GoroutineSteps(c) >= 0
  {
    Product(n, GoroutineSteps(c));
    Product(c.mirrors - url - 1, n * GoroutineSteps(c) + 4);
    OneMore(c.mirrors - url - 1, n * GoroutineSteps(c) + 4);
  }

  lemma OpenStepsDown(c: Config, n: nat, s: State, ok: bool, t: State)
    requires Inv(c, s) && PlanFits(c, n, s) && RunnerStep(c, s, Open(ok)) == Some(t)
    ensures PlanFits(c, n, t) && StepsLeft(c, n, t) < StepsLeft(c, n, s)
  {
    NextMirrorStepsDown(c, n, s, s.runner.url);
    RestingSteps(c, s.workers);
    RestingSteps(c, t.workers);
  }

  lemma LaunchingCosts(c: Config, n: nat, u: nat, next: nat)
    requires next <= n
    ensures RunnerSteps(c, n, Waiting(u)) < RunnerSteps(c, n, Launching(u, next))
    ensures RunnerSteps(c, n, Launching(u, next)) == RunnerSteps(c, n, Launching(u, next + 1)) + GoroutineSteps(c)
    ensures GoroutineSteps(c) == WorkerSteps(c, Asking(0)) + 1
  {
    Product(n - next, GoroutineSteps(c));
    OneMore(n - next - 1, GoroutineSteps(c));
    OneMore(c.maxRetry, AttemptSteps(c));
  }

  lemma LaunchStepsDown(c: Config, n: nat, s: State, t: State)
    requires Inv(c, s) && PlanFits(c, n, s) && RunnerStep(c, s, Launch) == Some(t)
    ensures PlanFits(c, n, t) && StepsLeft(c, n, t) < StepsLeft(c, n, s)
  {
    var u, next := s.runner.url, s.runner.next;
    LaunchingCosts(c, n, u, next);
    Product(c.maxRetry, AttemptSteps(c));
    if next < |s.workers| {
      StepsUpdate(c, s.workers, next, Asking(0));
      assert t.workers == s.workers || t.workers == s.workers[next := Asking(0)];
    }
  }

  /** From a mirror that is done the runner goes on to the next, to the end, or nowhere. */
  lemma WaitingMoveDown(c: Config, n: nat, u: nat, r': Runner)
    requires u < c.mirrors
    requires r'.NoRunner? || r'.Finalizing? || (r' == Mirror(u + 1) && u + 1 < c.mirrors)
    ensures RunnerSteps(c, n, r') < RunnerSteps(c, n, Waiting(u))
  {
    Product(n, GoroutineSteps(c));
    Product(c.mirrors - u - 1, n * GoroutineSteps(c) + 4);
  }

  lemma JoinStepsDown(c: Config, n: nat, s: State, t: State)
    requires Inv(c, s) && PlanFits(c, n, s) && RunnerStep(c, s, Join) == Some(t)
    ensures PlanFits(c, n, t) && StepsLeft(c, n, t) < StepsLeft(c, n, s)
  {
    JoinGoesOn(c, s);
    WaitingMoveDown(c, n, s.runner.url, t.runner);
    RestingSteps(c, s.workers);
    RestingSteps(c, t.workers);
  }

  lemma JoinGoesOn(c: Config, s: State)
    requires s.runner.Waiting?
    ensures var t, u := JoinStep(c, s), s.runner.url;
            && t.segments == s.segments && t.workers == AllIdle(|s.segments|)
            && (t.runner.NoRunner? || t.runner.Finalizing? || (t.runner == Mirror(u + 1) && u + 1 < c.mirrors))
  {
  }

  lemma FreshPlanFits(c: Config, n: nat, total: int, ranged: bool, segs: seq<Segment>)
    requires FreshSegments(c, total, ranged, segs) && Max(c.maxConn, 1) <= n
    ensures |segs| <= n
  {
  }

  /** Where the runner goes from setting up, */
  predicate SetupMove(r: Runner, r': Runner) {
    match r
    case Starting => r'.NoRunner? || r' == Mirror(0) || r' == Probing(0, 0)
    case Allocating => r'.NoRunner? || r'.Saving?
    case Saving(_) => r'.NoRunner? || r' == Mirror(0)
    case Finalizing => r'.NoRunner?
    case _ => false
  }

  /** and from probing. */
  predicate ProbeMove(c: Config, r: Runner, r': Runner) {
    match r
    case Probing(u, k) =>
      || r'.NoRunner? || r'.Allocating? || r'.Saving?
      || r' == ProbeBackoff(u, k) || (u + 1 < c.mirrors && r' == Probing(u + 1, 0))
    case ProbeBackoff(u, k) => r'.NoRunner? || r' == Probing(u, k + 1)
    case _ => false
  }

  lemma SetupMoveDown(c: Config, n: nat, r: Runner, r': Runner)
    requires SetupMove(r, r')
    ensures RunnerSteps(c, n, r') < RunnerSteps(c, n, r)
  {
    Product(n, GoroutineSteps(c));
    Product(c.mirrors, n * GoroutineSteps(c) + 4);
    Product(c.mirrors, 2 * c.maxRetry + 4);
  }

  lemma ProbeMoveDown(c: Config, n: nat, r: Runner, r': Runner)
    requires ProbeMove(c, r, r') && r.url < c.mirrors && r.attempt <= c.maxRetry
    ensures RunnerSteps(c, n, r') < RunnerSteps(c, n, r)
  {
    var left := c.mirrors - r.url - 1;
    OneMore(left, 2 * c.maxRetry + 4);
    Product(left, 2 * c.maxRetry + 4);
    Product(n, GoroutineSteps(c));
    Product(c.mirrors, n * GoroutineSteps(c) + 4);
  }

  lemma ProbeStepsDown(c: Config, n: nat, s: State, e: RunnerEvent, t: State)
    requires Inv(c, s) && Frugal(c, s) && PlanFits(c, n, s) && RunnerStep(c, s, e) == Some(t)
    requires e.ProbeReply? || e.ProbeFault? || e.ProbeAbort? || e.ProbeWake?
    ensures PlanFits(c, n, t) && StepsLeft(c, n, t) < StepsLeft(c, n, s)
  {
    assert ProbeMove(c, s.runner, t.runner);
    ProbeMoveDown(c, n, s.runner, t.runner);
    RestingSteps(c, s.workers);
    RestingSteps(c, t.workers);
    if e.ProbeReply? {
      FreshPlanFits(c, n, e.total, e.ranged, e.segs);
    }
  }

  /** The setup around the probing, and the end. */
  lemma SetupStepsDown(c: Config, n: nat, s: State, e: RunnerEvent, t: State)
    requires Inv(c, s) && PlanFits(c, n, s) && RunnerStep(c, s, e) == Some(t)
    requires e.Mkdir? || e.Allocate? || e.SaveFirst? || e.Verify?
    ensures PlanFits(c, n, t) && StepsLeft(c, n, t) < StepsLeft(c, n, s)
  {
    SetupGoesOn(c, s, e, t);
    SetupMoveDown(c, n, s.runner, t.runner);
  }

  lemma SetupGoesOn(c: Config, s: State, e: RunnerEvent, t: State)
    requires RunnerStep(c, s, e) == Some(t) && (e.Mkdir? || e.Allocate? || e.SaveFirst? || e.Verify?)
    ensures SetupMove(s.runner, t.runner) && t.workers == s.workers && t.segments == s.segments
  {
  }

  lemma RunnerStepsDown(c: Config, n: nat, s: State, e: RunnerEvent, t: State)
    requires Inv(c, s) && Frugal(c, s) && PlanFits(c, n, s) && RunnerStep(c, s, e) == Some(t)
    ensures PlanFits(c, n, t) && StepsLeft(c, n, t) < StepsLeft(c, n, s)
  {
    match e {
      case Open(ok) => OpenStepsDown(c, n, s, ok, t);
      case Launch => LaunchStepsDown(c, n, s, t);
      case Join => JoinStepsDown(c, n, s, t);
      case Mkdir(_) => SetupStepsDown(c, n, s, e, t);
      case Allocate(_) => SetupStepsDown(c, n, s, e, t);
      case SaveFirst(_) => SetupStepsDown(c, n, s, e, t);
      case Verify(_) => SetupStepsDown(c, n, s, e, t);
      case _ => ProbeStepsDown(c, n, s, e, t);
    }
  }

  /** A control call that starts no run leaves the steps alone. */
  lemma CallerStepsSame(c: Config, n: nat, s: State, k: nat, e: CallEvent, t: State)
    requires PlanFits(c, n, s) && CallerStep(c, s, k, e) == Some(t) && !e.Spawn?
    ensures PlanFits(c, n, t) && StepsLeft(c, n, t) == StepsLeft(c, n, s)
  {
  }

  // ---------------------------------------------------------------- whole cycles

  function EngineSteps(acts: seq<Action>): nat {
    if acts == [] then 0 else (if OfEngine(acts[0]) then 1 else 0) + EngineSteps(acts[1..])
  }

  function EmptyReads(acts: seq<Action>): nat {
    if acts == [] then 0 else (if EmptyRead(acts[0]) then 1 else 0) + EmptyReads(acts[1..])
  }

  /** No new cycle begins. */
  predicate SameCycle(acts: seq<Action>) {
    forall i :: 0 <= i < |acts| ==> !acts[i].Restart? && (acts[i].OfCaller? ==> !acts[i].call.Spawn?)
  }

  lemma StepDown(c: Config, n: nat, s: State, a: Action, t: State)
    requires Inv(c, s) && Frugal(c, s) && PlanFits(c, n, s) && Step(c, s, a) == Some(t) && SameCycle([a])
    ensures PlanFits(c, n, t)
    ensures StepsLeft(c, n, t) + (if OfEngine(a) then 1 else 0) <= StepsLeft(c, n, s) + if EmptyRead(a) then 2 else 0
  {
    assert [a][0] == a;
    match a
    case OfWorker(i, e) => WorkerStepsDown(c, n, s, i, e, t);
    case OfRunner(e) => RunnerStepsDown(c, n, s, e, t);
    case OfCaller(k, e) => CallerStepsSame(c, n, s, k, e, t);
  }

  lemma {:induction false} RunSteps(c: Config, n: nat, s: State, acts: seq<Action>, t: State)
    requires Inv(c, s) && Frugal(c, s) && PlanFits(c, n, s) && Run(c, s, acts) == Some(t) && SameCycle(acts)
    ensures EngineSteps(acts) + StepsLeft(c, n, t) <= StepsLeft(c, n, s) + 2 * EmptyReads(acts)
    ensures StepsLeft(c, n, t) >= 0
    decreases |acts|
  {
    if acts == [] {
      StepsLeftBound(c, n, s);
    } else {
      var mid := Step(c, s, acts[0]).value;
      StepKeeps(c, s, acts[0], mid);
      StepIsFrugal(c, s, acts[0], mid);
      assert SameCycle([acts[0]]);
      StepDown(c, n, s, acts[0], mid);
      assert forall i :: 0 <= i < |acts| - 1 ==> acts[1..][i] == acts[i + 1];
      RunSteps(c, n, mid, acts[1..], t);
    }
  }

  /** The most steps one Resume cycle can take, apart from empty reads. */
  function CycleSteps(c: Config, n: nat): int {
    c.mirrors * (n * GoroutineSteps(c) + 4) + c.mirrors * (2 * c.maxRetry + 4) + 6
  }

  /** However its goroutines interleave with each other and with control calls, and whatever fails, a Resume cycle ends
      within a fixed number of steps, not counting reads that yield nothing. */
  lemma CycleEnds(c: Config, acts: seq<Action>, s: State, more: seq<Action>, t: State, n: nat)
    requires Serialised(c) && Reaches(c, acts, s) && s.runner.Starting? && PlanFits(c, n, s)
    requires Run(c, s, more) == Some(t) && SameCycle(more)
    ensures EngineSteps(more) <= CycleSteps(c, n) + 2 * EmptyReads(more)
  {
    InitIsSafe(c);
    RunIsFrugal(c, Init(c), acts, s);
    RunSteps(c, n, s, more, t);
    RestingSteps(c, s.workers);
  }

  // ---------------------------------------------------------------- and nothing is ever stuck

  lemma WorkerCanMove(c: Config, s: State, i: nat) returns (e: WorkerEvent)
    requires Inv(c, s) && i < |s.workers| && !s.workers[i].Idle? && !s.workers[i].Done?
    ensures WorkerStep(c, s, i, e).Some? && e != Read(0, More)
  {
    InvIsLocal(c, s, i);
    LimitInPayload(c, s, i);
    match s.workers[i]
    case Asking(_) => e := Ask;
    case Asked(_, _) => e := Refuse(Faulty);
    case Reading(_, _) => e := Read(0, Broken);
    case Wrote(_, _, _, _) => e := Count;
    case Counted(_, _, _, _) => e := Publish;
    case Published(_, _, _, _) => e := Save(true);
    case Settling(_, _, _) => e := Check;
    case Failed(_, _) => e := Retry;
    case Backoff(_) => e := Wake;
  }

  lemma RunnerCanMove(c: Config, s: State) returns (e: RunnerEvent)
    requires Inv(c, s) && !s.runner.NoRunner? && (s.runner.Waiting? ==> AllReturned(s))
    ensures RunnerStep(c, s, e).Some?
  {
    match s.runner
    case Starting => e := Mkdir(true);
    case Probing(_, _) => e := ProbeFault;
    case ProbeBackoff(_, _) => e := ProbeWake;
    case Allocating => e := Allocate(true);
    case Saving(_) => e := SaveFirst(true);
    case Mirror(_) => e := Open(true);
    case Launching(_, _) => e := Launch;
    case Waiting(_) => e := Join;
    case Finalizing => e := Verify(true);
  }

  /** While a cycle is under way some goroutine can take a step that is not an empty read. */
  lemma NeverStuck(c: Config, acts: seq<Action>, s: State) returns (a: Action)
    requires Serialised(c) && Reaches(c, acts, s) && !s.runner.NoRunner?
    ensures OfEngine(a) && !EmptyRead(a) && Step(c, s, a).Some?
  {
    ReachableIsSafe(c, acts, s);
    if s.runner.Waiting? && !AllReturned(s) {
      var i: nat :| i < |s.workers| && !s.workers[i].Idle? && !s.workers[i].Done?;
      var e := WorkerCanMove(c, s, i);
      a := OfWorker(i, e);
    } else {
      var e := RunnerCanMove(c, s);
      a := OfRunner(e);
    }
  }

  // ---------------------------------------------------------------- a cancelled cycle needs nobody to end

  /** The step needs no answer: it is the program's own, or a request that the cancelled context breaks off. */
  predicate Local(a: Action) {
    match a
    case OfWorker(_, Accept) => false
    case OfWorker(_, Refuse(why)) => why == Canceled
    case OfWorker(_, Read(n, after)) => n == 0 && after == Aborted
    case OfWorker(_, WriteFault(_)) => false
    case OfRunner(ProbeReply(_, _, _)) => false
    case OfRunner(ProbeFault) => false
    case OfCaller(_, _) => false
    case Restart(_) => false
    case _ => true
  }

  lemma WorkerCanGiveUp(c: Config, s: State, i: nat) returns (e: WorkerEvent)
    requires Inv(c, s) && s.cancelled && i < |s.workers| && !s.workers[i].Idle? && !s.workers[i].Done?
    ensures WorkerStep(c, s, i, e).Some? && Local(OfWorker(i, e))
  {
    InvIsLocal(c, s, i);
    LimitInPayload(c, s, i);
    match s.workers[i]
    case Asking(_) => e := Ask;
    case Asked(_, _) => e := Refuse(Canceled);
    case Reading(_, _) => e := Read(0, Aborted);
    case Wrote(_, _, _, _) => e := Count;
    case Counted(_, _, _, _) => e := Publish;
    case Published(_, _, _, _) => e := Save(true);
    case Settling(_, _, _) => e := Check;
    case Failed(_, _) => e := Retry;
    case Backoff(_) => e := GiveUp;
  }

  lemma RunnerCanGiveUp(c: Config, s: State) returns (e: RunnerEvent)
    requires Inv(c, s) && s.cancelled && !s.runner.NoRunner? && (s.runner.Waiting? ==> AllReturned(s))
    ensures RunnerStep(c, s, e).Some? && Local(OfRunner(e))
  {
    if s.runner.Probing? || s.runner.ProbeBackoff? {
      e := ProbeAbort;
    } else {
      e := RunnerCanMove(c, s);
    }
  }

  lemma CanGiveUp(c: Config, s: State) returns (a: Action)
    requires Inv(c, s) && s.cancelled && !s.runner.NoRunner?
    ensures OfEngine(a) && Local(a) && Step(c, s, a).Some?
  {
    if s.runner.Waiting? && !AllReturned(s) {
      var i: nat :| i < |s.workers| && !s.workers[i].Idle? && !s.workers[i].Done?;
      var e := WorkerCanGiveUp(c, s, i);
      a := OfWorker(i, e);
    } else {
      var e := RunnerCanGiveUp(c, s);
      a := OfRunner(e);
    }
  }

  lemma WorkerStaysCancelled(c: Config, s: State, i: nat, e: WorkerEvent, t: State)
    requires WorkerStep(c, s, i, e) == Some(t)
    ensures t.cancelled == s.cancelled && t.ctl == s.ctl
  {
  }

  lemma RunnerStaysCancelled(c: Config, s: State, e: RunnerEvent, t: State)
    requires RunnerStep(c, s, e) == Some(t)
    ensures t.cancelled == s.cancelled && t.ctl == s.ctl
  {
  }

  lemma {:induction false} GivesUp(c: Config, n: nat, s: State) returns (more: seq<Action>, t: State)
    requires Inv(c, s) && Frugal(c, s) && PlanFits(c, n, s) && s.cancelled
    ensures Run(c, s, more) == Some(t) && (forall i :: 0 <= i < |more| ==> OfEngine(more[i]) && Local(more[i]))
    ensures t.runner.NoRunner? && t.ctl == s.ctl && |more| <= StepsLeft(c, n, s)
    decreases StepsLeft(c, n, s)
  {
    StepsLeftBound(c, n, s);
    more, t := [], s;
    if !s.runner.NoRunner? {
      var a := CanGiveUp(c, s);
      var mid := Step(c, s, a).value;
      StepKeeps(c, s, a, mid);
      StepIsFrugal(c, s, a, mid);
      StepDown(c, n, s, a, mid);
      StepsLeftBound(c, n, mid);
      if a.OfWorker? {
        WorkerStaysCancelled(c, s, a.i, a.worker, mid);
      } else {
        RunnerStaysCancelled(c, s, a.event, mid);
      }
      var rest: seq<Action>;
      rest, t := GivesUp(c, n, mid);
      more := [a] + rest;
      assert more[1..] == rest;
    }
  }

  /** What a Pause, Cancel or Remove waits for happens without any answer from a server: from every state in which the
      context is cancelled, steps of the program alone lead to the end of the cycle, and no more of them than a cycle has. */
  lemma CancelNeedsNobody(c: Config, acts: seq<Action>, s: State, n: nat) returns (more: seq<Action>, t: State)
    requires Serialised(c) && Reaches(c, acts, s) && s.cancelled && PlanFits(c, n, s)
    ensures Run(c, s, more) == Some(t) && (forall i :: 0 <= i < |more| ==> OfEngine(more[i]) && Local(more[i]))
    ensures t.runner.NoRunner? && t.ctl == s.ctl && |more| <= StepsLeft(c, n, s)
  {
    InitIsSafe(c);
    RunIsFrugal(c, Init(c), acts, s);
    more, t := GivesUp(c, n, s);
  }

  /** A Pause, Cancel or Remove that waits has cancelled the context, and the program alone brings it to its return. */
  lemma StopNeedsNobody(c: Config, acts: seq<Action>, s: State) returns (more: seq<Action>, mid: State, t: State)
    requires Serialised(c) && Reaches(c, acts, s)
    requires s.ctl != [] && (s.ctl[0].Pausing? || s.ctl[0].Cancelling? || s.ctl[0].Removing?)
    ensures s.cancelled
    ensures Run(c, s, more) == Some(mid) && (forall i :: 0 <= i < |more| ==> OfEngine(more[i]) && Local(more[i]))
    ensures Step(c, mid, OfCaller(0, Return)) == Some(t)
  {
    ReachableIsSafe(c, acts, s);
    more, mid := CancelNeedsNobody(c, acts, s, Max(|s.segments|, Max(c.maxConn, 1)));
    t := Step(c, mid, OfCaller(0, Return)).value;
  }
}
