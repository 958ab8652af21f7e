/** A download does not give up early: before a cycle fails, every mirror has been tried, and every request repeated as
    often as the retry limit says. */
module HttpEnginePersistence {
  import opened HttpEngine
  import opened HttpEngineCompletion
  import opened HttpEngineEffort
  import opened HttpEngineSafety
  import opened HttpEngineTermination
  import opened HttpEngineTheorems
  import Runs
  import opened Segments
  import opened Wrappers

  /** A step of the engine, with no fault of the local disk and no checksum that differs. */
  predicate Smooth(a: Action) {
    OfEngine(a)
    && a != OfRunner(Mkdir(false)) && a != OfRunner(Allocate(false)) && a != OfRunner(SaveFirst(false))
    && a != OfRunner(Verify(false))
  }

  predicate AllSmooth(acts: seq<Action>) {
    forall i :: 0 <= i < |acts| ==> Smooth(acts[i])
  }

  predicate IsOpen(a: Action) {
    a.OfRunner? && a.event.Open?
  }

  function OpenCount(a: Action): nat {
    if IsOpen(a) then 1 else 0
  }

  function GoodCount(a: Action): nat {
    if IsOpen(a) && a.event.ok then 1 else 0
  }

  /** How often the destination has been opened for a mirror, and how often that worked. */
  function Opens(acts: seq<Action>): nat {
    if acts == [] then 0 else OpenCount(acts[0]) + Opens(acts[1..])
  }

  function GoodOpens(acts: seq<Action>): nat {
    if acts == [] then 0 else GoodCount(acts[0]) + GoodOpens(acts[1..])
  }

  // ---------------------------------------------------------------- what has been tried so far

  /** Requests a goroutine has sent for its mirror, as far as its position tells. */
  function Sent(w: Worker): nat {
    match w
    case Idle => 0
    case Done => 0
    case Asking(k) => k
    case _ => w.attempt + 1
  }

  /** `n` mirrors have cost their full number of requests for some segment. */
  function FullCost(c: Config, n: int): int {
    if n <= 0 then 0 else FullCost(c, n - 1) + c.maxRetry + 1
  }

  lemma {:induction false} FullCostIs(c: Config, n: nat)
    ensures FullCost(c, n) == n * (c.maxRetry + 1)
  {
    if n > 0 {
      FullCostIs(c, n - 1);
      OneMore(n - 1, c.maxRetry + 1);
    }
  }

  ghost predicate WorkersTried(c: Config, s: State, before: int) {
    && (forall i :: 0 <= i < |s.workers| ==> FullCost(c, before) + Sent(s.workers[i]) <= s.fetches)
    && (s.failure.Some? ==> FullCost(c, before + 1) <= s.fetches)
  }

  ghost predicate Tried(c: Config, s: State, opens: nat, good: nat) {
    && !s.cancelled
    && match s.runner
       case Starting => opens == 0 && good == 0 && s.probes == 0 && s.fetches == 0
       case Probing(u, k) => opens == 0 && good == 0 && s.fetches == 0 && k <= c.maxRetry && s.probes == FullCost(c, u) + k
       case ProbeBackoff(u, k) => opens == 0 && good == 0 && s.fetches == 0 && k < c.maxRetry && s.probes == FullCost(c, u) + k + 1
       case Allocating => opens == 0 && good == 0 && s.fetches == 0
       case Saving(_) => opens == 0 && good == 0 && s.fetches == 0
       case Mirror(u) => opens == u && FullCost(c, good) <= s.fetches
       case Launching(u, _) => opens == u + 1 && good > 0 && WorkersTried(c, s, good - 1) && FullCost(c, good - 1) <= s.fetches
       case Waiting(u) => opens == u + 1 && good > 0 && WorkersTried(c, s, good - 1) && FullCost(c, good - 1) <= s.fetches
       case Finalizing => true
       case NoRunner =>
         || s.status.Complete?
         || (s.status.Error? && if s.segments == [] then opens == 0 && s.probes == FullCost(c, c.mirrors)
                                else opens == c.mirrors && FullCost(c, good) <= s.fetches)
  }

  /** What the count needs to know of the invariant. */
  ghost predicate Course(c: Config, s: State) {
    && |s.workers| == |s.segments|
    && (forall i :: 0 <= i < |s.workers| && !s.workers[i].Idle? ==>
          && (s.runner.Launching? || s.runner.Waiting?)
          && (s.workers[i].Failed? && s.workers[i].why == Canceled ==> s.cancelled))
    && (s.failure == Some(Canceled) && (s.runner.Launching? || s.runner.Waiting?) ==> s.cancelled)
    && match s.runner
       case Probing(u, _) => s.segments == [] && u < c.mirrors
       case ProbeBackoff(u, _) => s.segments == [] && u < c.mirrors
       case Mirror(u) => s.segments != [] && u < c.mirrors
       case Launching(u, _) => s.segments != [] && u < c.mirrors
       case Waiting(u) => s.segments != [] && u < c.mirrors
       case _ => true
  }

  lemma InvIsCourse(c: Config, s: State)
    requires Inv(c, s)
    ensures Course(c, s)
  {
    forall i | 0 <= i < |s.workers| && s.workers[i].Failed? && s.workers[i].why == Canceled ensures s.cancelled {
      assert WorkerOk(c, s.file, s.failure, s.cancelled, s.segments[i], s.workers[i]);
    }
  }

  lemma OneMoreMirror(c: Config, n: nat)
    ensures FullCost(c, n + 1) == FullCost(c, n) + c.maxRetry + 1
  {
  }

  // ---------------------------------------------------------------- every step keeps count

  /** What a goroutine's step does to the count. */
  ghost predicate Counts(c: Config, s: State, i: nat, t: State) {
    && i < |s.workers| == |t.workers| && t.workers == s.workers[i := t.workers[i]]
    && t.runner == s.runner && t.cancelled == s.cancelled && s.fetches <= t.fetches
    && Sent(t.workers[i]) <= Sent(s.workers[i]) + (t.fetches - s.fetches)
    && (t.failure == s.failure || (s.failure.None? && c.maxRetry + 1 <= Sent(s.workers[i])))
  }

  lemma RequestCounts(c: Config, s: State, i: nat, e: WorkerEvent, t: State)
    requires WorkerStep(c, s, i, e) == Some(t) && (e.Ask? || e.Accept? || e.Refuse?)
    ensures Counts(c, s, i, t)
  {
  }

  lemma ChunkCounts(c: Config, s: State, i: nat, e: WorkerEvent, t: State)
    requires WorkerStep(c, s, i, e) == Some(t)
    requires e.Read? || e.WriteFault? || e.Count? || e.Publish? || e.Save? || e.Check?
    ensures Counts(c, s, i, t)
  {
  }

  lemma RetryCounts(c: Config, s: State, i: nat, e: WorkerEvent, t: State)
    requires WorkerStep(c, s, i, e) == Some(t) && (e.Retry? || e.Wake? || e.GiveUp?) && !s.cancelled
    requires s.workers[i].Failed? ==> s.workers[i].why != Canceled
    ensures Counts(c, s, i, t)
  {
  }

  lemma WorkerCounts(c: Config, s: State, i: nat, e: WorkerEvent, t: State)
    requires Course(c, s) && !s.cancelled && WorkerStep(c, s, i, e) == Some(t)
    ensures Counts(c, s, i, t)
  {
    if e.Ask? || e.Accept? || e.Refuse? {
      RequestCounts(c, s, i, e, t);
    } else if e.Retry? || e.Wake? || e.GiveUp? {
      RetryCounts(c, s, i, e, t);
    } else {
      ChunkCounts(c, s, i, e, t);
    }
  }

  lemma WorkerTried(c: Config, s: State, i: nat, e: WorkerEvent, t: State, opens: nat, good: nat)
    requires Course(c, s) && Tried(c, s, opens, good) && WorkerStep(c, s, i, e) == Some(t)
    ensures Tried(c, t, opens, good)
  {
    WorkerCounts(c, s, i, e, t);
    assert !s.workers[i].Idle?;
    assert s.runner.Launching? || s.runner.Waiting?;
    OneMoreMirror(c, good - 1);
  }

  lemma ProbeFaultTried(c: Config, s: State, opens: nat, good: nat)
    requires Course(c, s) && Tried(c, s, opens, good) && s.runner.Probing?
    ensures Tried(c, ProbeFaultStep(c, s), opens, good)
  {
    OneMoreMirror(c, s.runner.url);
  }

  /** Setting up, planning and probing again. */
  lemma SetupTried(c: Config, s: State, e: RunnerEvent, t: State, opens: nat, good: nat)
    requires Course(c, s) && Tried(c, s, opens, good) && RunnerStep(c, s, e) == Some(t) && Smooth(OfRunner(e))
    requires e.Mkdir? || e.ProbeReply? || e.ProbeAbort? || e.ProbeWake? || e.Allocate? || e.SaveFirst? || e.Verify?
    ensures Tried(c, t, opens, good)
  {
  }

  lemma OpenTried(c: Config, s: State, ok: bool, t: State, opens: nat, good: nat)
    requires Course(c, s) && Tried(c, s, opens, good) && RunnerStep(c, s, Open(ok)) == Some(t)
    ensures Tried(c, t, opens + 1, if ok then good + 1 else good)
  {
  }

  lemma LaunchTried(c: Config, s: State, opens: nat, good: nat)
    requires Course(c, s) && Tried(c, s, opens, good) && s.runner.Launching?
    ensures Tried(c, LaunchStep(s), opens, good)
  {
  }

  lemma JoinTried(c: Config, s: State, opens: nat, good: nat)
    requires Course(c, s) && Tried(c, s, opens, good) && s.runner.Waiting?
    ensures Tried(c, JoinStep(c, s), opens, good)
  {
    assert s.failure != Some(Canceled);
  }

  lemma RunnerTried(c: Config, s: State, e: RunnerEvent, t: State, opens: nat, good: nat)
    requires Course(c, s) && Tried(c, s, opens, good) && RunnerStep(c, s, e) == Some(t) && Smooth(OfRunner(e)) && !e.Open?
    ensures Tried(c, t, opens, good)
  {
    match e
    case Launch => LaunchTried(c, s, opens, good);
    case Join => JoinTried(c, s, opens, good);
    case ProbeFault => ProbeFaultTried(c, s, opens, good);
    case _ => SetupTried(c, s, e, t, opens, good);
  }

  lemma StepTried(c: Config, s: State, a: Action, t: State, opens: nat, good: nat)
    requires Course(c, s) && Tried(c, s, opens, good) && Step(c, s, a) == Some(t) && Smooth(a)
    ensures Tried(c, t, opens + OpenCount(a), good + GoodCount(a))
  {
    match a
    case OfWorker(i, e) => WorkerTried(c, s, i, e, t, opens, good);
    case OfRunner(e) =>
      if e.Open? {
        OpenTried(c, s, e.ok, t, opens, good);
      } else {
        RunnerTried(c, s, e, t, opens, good);
      }
  }

  /** Every state on the way is on course. */
  ghost predicate OnCourse(c: Config, s: State, acts: seq<Action>) {
    forall j, mid :: 0 <= j <= |acts| && Run(c, s, acts[..j]) == Some(mid) ==> Course(c, mid)
  }

  lemma SafeIsOnCourse(c: Config, s: State, acts: seq<Action>)
    requires Inv(c, s)
    ensures OnCourse(c, s, acts)
  {
    forall j, mid | 0 <= j <= |acts| && Run(c, s, acts[..j]) == Some(mid) ensures Course(c, mid) {
      RunKeeps(c, s, acts[..j], mid);
      InvIsCourse(c, mid);
    }
  }

  lemma {:induction false} OpensSnoc(acts: seq<Action>, a: Action)
    ensures Opens(acts + [a]) == Opens(acts) + OpenCount(a) && GoodOpens(acts + [a]) == GoodOpens(acts) + GoodCount(a)
  {
    if acts == [] {
      assert acts + [a] == [a] && [a][1..] == [];
    } else {
      assert (acts + [a])[1..] == acts[1..] + [a];
      OpensSnoc(acts[1..], a);
    }
  }

  lemma NextTried(c: Config, s: State, a: Action, t: State, opens: nat, good: nat, opens': nat, good': nat)
    requires Course(c, s) && Tried(c, s, opens, good) && Step(c, s, a) == Some(t) && Smooth(a)
    requires opens' == opens + OpenCount(a) && good' == good + GoodCount(a)
    ensures Tried(c, t, opens', good')
  {
    StepTried(c, s, a, t, opens, good);
  }

  /** A run without its last step. */
  lemma Peel(c: Config, s: State, acts: seq<Action>, t: State) returns (init: seq<Action>, mid: State, a: Action)
    requires acts != [] && OnCourse(c, s, acts) && AllSmooth(acts) && Run(c, s, acts) == Some(t)
    ensures acts == init + [a] && OnCourse(c, s, init) && AllSmooth(init) && Run(c, s, init) == Some(mid)
    ensures Course(c, mid) && Smooth(a) && Step(c, mid, a) == Some(t)
  {
    var n := |acts| - 1;
    init, a := acts[..n], acts[n];
    mid := Runs.Prefix(Stepper(c), s, acts, t, n);
    assert acts[n..] == [a] && [a][1..] == [];
    CourseBefore(c, s, acts, n, mid);
  }

  lemma CourseBefore(c: Config, s: State, acts: seq<Action>, n: nat, t: State)
    requires OnCourse(c, s, acts) && n <= |acts| && Run(c, s, acts[..n]) == Some(t)
    ensures OnCourse(c, s, acts[..n]) && Course(c, t)
  {
    forall j, mid | 0 <= j <= n && Run(c, s, acts[..n][..j]) == Some(mid) ensures Course(c, mid) {
      assert acts[..n][..j] == acts[..j];
    }
  }

  lemma {:induction false} RunTried(c: Config, s: State, acts: seq<Action>, t: State)
    requires OnCourse(c, s, acts) && Tried(c, s, 0, 0) && AllSmooth(acts) && Run(c, s, acts) == Some(t)
    ensures Tried(c, t, Opens(acts), GoodOpens(acts))
    decreases |acts|
  {
    if acts == [] {
      assert t == s;
    } else {
      var init, mid, a := Peel(c, s, acts, t);
      RunTried(c, s, init, mid);
      OpensSnoc(init, a);
      NextTried(c, mid, a, t, Opens(init), GoodOpens(init), Opens(acts), GoodOpens(acts));
    }
  }

  // ---------------------------------------------------------------- a cycle that fails has tried everything

  lemma FreshCycle(c: Config, acts: seq<Action>, s: State)
    requires Serialised(c) && Reaches(c, acts, s) && s.runner.Starting? && !s.cancelled
    ensures Inv(c, s) && Tried(c, s, 0, 0)
  {
    InitIsSafe(c);
    RunIsFrugal(c, Init(c), acts, s);
  }

  /** An undisturbed cycle ends Complete or in Error. It ends in Error without a plan only after maxRetry+1 probes of every
      URL, and with a plan only after every mirror was opened; each mirror that could be opened then cost maxRetry+1
      requests for some segment. */
  lemma FailsOnlyAfterEverything(c: Config, acts: seq<Action>, s: State, more: seq<Action>, t: State)
    requires Serialised(c) && Reaches(c, acts, s) && s.runner.Starting? && !s.cancelled
    requires AllSmooth(more) && Run(c, s, more) == Some(t) && t.runner.NoRunner?
    ensures t.status.Complete? || t.status.Error?
    ensures t.status.Error? && t.segments == [] ==> t.probes == c.mirrors * (c.maxRetry + 1)
    ensures t.status.Error? && t.segments != [] ==> Opens(more) == c.mirrors
    ensures t.status.Error? && t.segments != [] ==> GoodOpens(more) * (c.maxRetry + 1) <= t.fetches
  {
    FreshCycle(c, acts, s);
    SafeIsOnCourse(c, s, more);
    RunTried(c, s, more, t);
    FullCostIs(c, c.mirrors);
    FullCostIs(c, GoodOpens(more));
  }

  /** The opening number `u`, counted from 0. */
  lemma {:induction false} FindOpen(acts: seq<Action>, u: nat) returns (j: nat)
    requires u < Opens(acts)
    ensures j < |acts| && IsOpen(acts[j]) && Opens(acts[..j]) == u
  {
    if IsOpen(acts[0]) && u == 0 {
      j := 0;
    } else {
      j := FindOpen(acts[1..], u - OpenCount(acts[0]));
      j := j + 1;
      assert acts[..j][1..] == acts[1..][..j - 1];
    }
  }

  /** So a cycle that fails with a plan has stood before every mirror and opened the destination for it. */
  lemma FailureTriesEveryMirror(c: Config, acts: seq<Action>, s: State, more: seq<Action>, t: State, u: nat)
    returns (j: nat, mid: State)
    requires Serialised(c) && Reaches(c, acts, s) && s.runner.Starting? && !s.cancelled
    requires AllSmooth(more) && Run(c, s, more) == Some(t) && t.runner.NoRunner?
    requires t.status.Error? && t.segments != [] && u < c.mirrors
    ensures j < |more| && IsOpen(more[j]) && Run(c, s, more[..j]) == Some(mid) && mid.runner == Mirror(u)
  {
    FreshCycle(c, acts, s);
    FailsOnlyAfterEverything(c, acts, s, more, t);
    j := FindOpen(more, u);
    mid := Runs.Prefix(Stepper(c), s, more, t, j);
    SafeIsOnCourse(c, s, more[..j]);
    RunTried(c, s, more[..j], mid);
    StandsBefore(c, mid, u, GoodOpens(more[..j]), more[j]);
  }

  lemma StandsBefore(c: Config, s: State, opens: nat, good: nat, a: Action)
    requires Tried(c, s, opens, good) && IsOpen(a) && Step(c, s, a).Some?
    ensures s.runner == Mirror(opens)
  {
  }

  // ---------------------------------------------------------------- falling back to the last mirror

  predicate NoneAccepted(acts: seq<Action>) {
    forall i :: 0 <= i < |acts| ==> acts[i].OfWorker? ==> !acts[i].worker.Accept?
  }

  /** One attempt of the only goroutine is refused. */
  lemma RefusedOnce(c: Config, s: State, k: nat, acts: seq<Action>, mid: State) returns (longer: seq<Action>, t: State)
    requires Run(c, s, acts) == Some(mid) && NoneAccepted(acts)
    requires mid.workers == [Asking(k)] && mid.segments == [Segment(0, 0, -1)] && !mid.ranged
    ensures Run(c, s, longer) == Some(t) && NoneAccepted(longer)
    ensures t == mid.(workers := [Failed(k, Faulty)], fetches := mid.fetches + 1, downloaded := t.downloaded)
  {
    longer, t := Runs.Take(Stepper(c), s, acts, mid, OfWorker(0, Ask));
    longer, t := Runs.Take(Stepper(c), s, longer, t, OfWorker(0, Refuse(Faulty)));
  }

  /** Attempts `k` to maxRetry of the only goroutine are refused. */
  lemma {:induction false} RefusedFrom(c: Config, s: State, k: nat, acts: seq<Action>, mid: State)
    returns (longer: seq<Action>, t: State)
    requires Run(c, s, acts) == Some(mid) && NoneAccepted(acts) && k <= c.maxRetry
    requires mid.workers == [Asking(k)] && mid.segments == [Segment(0, 0, -1)] && !mid.ranged && mid.failure.None?
    ensures Run(c, s, longer) == Some(t) && NoneAccepted(longer) && t.failure == Some(Faulty) && t.workers == [Done]
    ensures t == mid.(workers := t.workers, failure := t.failure, fetches := t.fetches, downloaded := t.downloaded)
    ensures t.fetches == mid.fetches + (c.maxRetry + 1 - k)
    decreases c.maxRetry - k
  {
    longer, t := RefusedOnce(c, s, k, acts, mid);
    longer, t := Runs.Take(Stepper(c), s, longer, t, OfWorker(0, Retry));
    if k < c.maxRetry {
      longer, t := Runs.Take(Stepper(c), s, longer, t, OfWorker(0, Wake));
      assert t.workers == [Asking(k + 1)];
      longer, t := RefusedFrom(c, s, k + 1, longer, t);
    }
  }

  /** A mirror that refuses everything: the next one is tried. */
  lemma RefusedMirror(c: Config, s: State, acts: seq<Action>, mid: State) returns (longer: seq<Action>, t: State)
    requires Run(c, s, acts) == Some(mid) && NoneAccepted(acts)
    requires mid.runner.Mirror? && mid.runner.url + 1 < c.mirrors && mid.segments == [Segment(0, 0, -1)] && !mid.ranged
    ensures Run(c, s, longer) == Some(t) && NoneAccepted(longer) && t.runner == Mirror(mid.runner.url + 1)
    ensures t.segments == mid.segments && !t.ranged && t.file == mid.file && t.fetches == mid.fetches + c.maxRetry + 1
  {
    longer, t := Runs.Take(Stepper(c), s, acts, mid, OfRunner(Open(true)));
    longer, t := Runs.Take(Stepper(c), s, longer, t, OfRunner(Launch));
    assert t.workers == [Asking(0)];
    longer, t := Runs.Take(Stepper(c), s, longer, t, OfRunner(Launch));
    longer, t := RefusedFrom(c, s, 0, longer, t);
    longer, t := Runs.Take(Stepper(c), s, longer, t, OfRunner(Join));
  }

  lemma {:induction false} RefusedUpTo(c: Config, s: State, last: nat, acts: seq<Action>, mid: State)
    returns (longer: seq<Action>, t: State)
    requires Run(c, s, acts) == Some(mid) && NoneAccepted(acts) && last < c.mirrors
    requires mid.runner.Mirror? && mid.runner.url <= last && mid.segments == [Segment(0, 0, -1)] && !mid.ranged
    ensures Run(c, s, longer) == Some(t) && NoneAccepted(longer) && t.runner == Mirror(last)
    ensures t.segments == mid.segments && !t.ranged && t.file == mid.file
    ensures t.fetches == mid.fetches + (last - mid.runner.url) * (c.maxRetry + 1)
    decreases last - mid.runner.url
  {
    longer, t := acts, mid;
    if mid.runner.url < last {
      longer, t := RefusedMirror(c, s, acts, mid);
      longer, t := RefusedUpTo(c, s, last, longer, t);
      OneMore(last - mid.runner.url - 1, c.maxRetry + 1);
    }
  }

  /** However many mirrors there are: some run has every request to all but the last refused, maxRetry+1 times each, and
      completes through the last one with the payload on disk. */
  lemma LastMirrorDelivers(c: Config) returns (first: seq<Action>, mid: State, rest: seq<Action>, t: State)
    requires Serialised(c) && !c.shortEof && !c.orphans
    ensures Reaches(c, first, mid) && NoneAccepted(first) && mid.runner == Mirror(c.mirrors - 1)
    ensures mid.fetches == (c.mirrors - 1) * (c.maxRetry + 1)
    ensures Run(c, mid, rest) == Some(t) && t.status.Complete? && c.payload <= t.file
  {
    var s := Init(c);
    first, mid := PlansFirst(c);
    first, mid := RefusedUpTo(c, s, c.mirrors - 1, first, mid);
    FreshIsFetchable(c, mid);
    rest, t := Completes(c, mid, [], mid);
    Runs.Concat(Stepper(c), s, first, mid, rest);
    CompleteDelivers(c, first + rest, t);
  }

  lemma PlansFirst(c: Config) returns (acts: seq<Action>, t: State)
    requires Serialised(c)
    ensures Reaches(c, acts, t) && NoneAccepted(acts) && t.runner == Mirror(0) && t.fetches == 0
    ensures t.segments == [Segment(0, 0, -1)] && !t.ranged
  {
    var s, plan := Init(c), [Segment(0, 0, -1)];
    assert FreshSegments(c, -1, false, plan);
    acts, t := Runs.Take(Stepper(c), s, [], s, OfCaller(0, Resume));
    acts, t := Runs.Take(Stepper(c), s, acts, t, OfCaller(0, Spawn));
    acts, t := Runs.Take(Stepper(c), s, acts, t, OfRunner(Mkdir(true)));
    acts, t := Runs.Take(Stepper(c), s, acts, t, OfRunner(ProbeReply(-1, false, plan)));
    acts, t := Runs.Take(Stepper(c), s, acts, t, OfRunner(SaveFirst(true)));
  }
}
