/** How many requests one Resume cycle can send. */
module HttpEngineEffort {
  import opened HttpEngine
  import opened HttpEngineSafety
  import opened HttpEngineTheorems
  import opened Segments
  import opened Wrappers

  /** Calls of `fetchSegment` a goroutine has made for its mirror so far. */
  function Used(c: Config, w: Worker): nat {
    match w
    case Idle => 0
    case Done => c.maxRetry + 1
    case Asking(k) => k
    case _ => w.attempt + 1
  }

  predicate WithinRetries(c: Config, w: Worker) {
    match w
    case Idle => true
    case Done => true
    case Backoff(k) => k < c.maxRetry
    case _ => w.attempt <= c.maxRetry
  }

  function TotalUsed(c: Config, workers: seq<Worker>): nat {
    if workers == [] then 0 else Used(c, workers[0]) + TotalUsed(c, workers[1..])
  }

  lemma {:induction false} UsedUpdate(c: Config, workers: seq<Worker>, i: nat, w: Worker)
    requires i < |workers|
    ensures TotalUsed(c, workers[i := w]) == TotalUsed(c, workers) - Used(c, workers[i]) + Used(c, w)
  {
    if i == 0 {
      assert workers[0 := w][1..] == workers[1..];
    } else {
      assert workers[i := w][1..] == workers[1..][i - 1 := w];
      UsedUpdate(c, workers[1..], i - 1, w);
    }
  }

  lemma {:induction false} UsedBound(c: Config, workers: seq<Worker>)
    requires forall i :: 0 <= i < |workers| ==> WithinRetries(c, workers[i])
    ensures TotalUsed(c, workers) <= |workers| * (c.maxRetry + 1)
  {
    if workers != [] {
      assert forall i :: 0 <= i < |workers| - 1 ==> workers[1..][i] == workers[i + 1];
      UsedBound(c, workers[1..]);
      assert |workers| * (c.maxRetry + 1) == (|workers| - 1) * (c.maxRetry + 1) + (c.maxRetry + 1);
    }
  }

  lemma {:induction false} UsedIdle(c: Config, n: nat)
    ensures TotalUsed(c, AllIdle(n)) == 0
  {
    if n > 0 {
      assert AllIdle(n)[1..] == AllIdle(n - 1);
      UsedIdle(c, n - 1);
    }
  }

  /** Fetches allowed once `mirrors` mirrors have been tried. */
  function FetchQuota(c: Config, s: State, mirrors: nat): nat {
    mirrors * (|s.segments| * (c.maxRetry + 1))
  }

  function ProbeQuota(c: Config, mirrors: nat): nat {
    mirrors * (c.maxRetry + 1)
  }

  ghost predicate Frugal(c: Config, s: State) {
    && (forall i :: 0 <= i < |s.workers| ==> WithinRetries(c, s.workers[i]))
    && (match s.runner
        case NoRunner => s.fetches <= FetchQuota(c, s, c.mirrors)
        case Mirror(url) => s.fetches <= FetchQuota(c, s, url)
        case Launching(url, _) => s.fetches <= FetchQuota(c, s, url) + TotalUsed(c, s.workers)
        case Waiting(url) => s.fetches <= FetchQuota(c, s, url) + TotalUsed(c, s.workers)
        case Finalizing => s.fetches <= FetchQuota(c, s, c.mirrors)
        case _ => s.fetches == 0)
    && (match s.runner
        case Probing(url, k) => k <= c.maxRetry && s.probes <= ProbeQuota(c, url) + k
        case ProbeBackoff(url, k) => k < c.maxRetry && s.probes <= ProbeQuota(c, url) + k + 1
        case Starting => s.probes == 0
        case _ => s.probes <= ProbeQuota(c, c.mirrors))
  }

  lemma QuotaGrows(c: Config, s: State, url: nat)
    requires url < c.mirrors
    ensures FetchQuota(c, s, url) + |s.segments| * (c.maxRetry + 1) == FetchQuota(c, s, url + 1) <= FetchQuota(c, s, c.mirrors)
    ensures ProbeQuota(c, url) + c.maxRetry + 1 == ProbeQuota(c, url + 1) <= ProbeQuota(c, c.mirrors)
  {
    NextProduct(url, c.mirrors, |s.segments| * (c.maxRetry + 1));
    NextProduct(url, c.mirrors, c.maxRetry + 1);
  }

  lemma NextProduct(a: nat, b: nat, k: nat)
    requires a < b
    ensures a * k + k == (a + 1) * k <= b * k
  {
    var d := b - a - 1;
    assert b * k == (a + 1) * k + d * k && d * k >= 0;
  }

  lemma WorkerIsFrugal(c: Config, s: State, i: nat, e: WorkerEvent, t: State)
    requires Frugal(c, s) && WorkerStep(c, s, i, e) == Some(t)
    requires s.runner.Launching? || s.runner.Waiting?
    ensures Frugal(c, t)
  {
    WorkerUses(c, s, i, e, t);
    UsedUpdate(c, s.workers, i, t.workers[i]);
    assert FetchQuota(c, t, t.runner.url) == FetchQuota(c, s, s.runner.url);
  }

  /** What a worker step may do to the request budget. */
  ghost predicate Pays(c: Config, s: State, i: nat, t: State) {
    && i < |s.workers| && |t.workers| == |s.workers|
    && t.workers == s.workers[i := t.workers[i]] && |t.segments| == |s.segments|
    && t.runner == s.runner && t.probes == s.probes
    && WithinRetries(c, t.workers[i])
    && t.fetches - s.fetches <= Used(c, t.workers[i]) as int - Used(c, s.workers[i]) as int
  }

  /** Only `Ask` starts a fetch, and it is paid for by one use; a retry starts only within the limit. */
  lemma WorkerUses(c: Config, s: State, i: nat, e: WorkerEvent, t: State)
    requires i < |s.workers| && WithinRetries(c, s.workers[i]) && WorkerStep(c, s, i, e) == Some(t)
    ensures Pays(c, s, i, t)
  {
    match e
    case Ask => RequestUses(c, s, i, e, t);
    case Accept => RequestUses(c, s, i, e, t);
    case Refuse(_) => RequestUses(c, s, i, e, t);
    case Retry => RetryUses(c, s, i, e, t);
    case Wake => RetryUses(c, s, i, e, t);
    case GiveUp => RetryUses(c, s, i, e, t);
    case _ => ChunkUses(c, s, i, e, t);
  }

  lemma RequestUses(c: Config, s: State, i: nat, e: WorkerEvent, t: State)
    requires i < |s.workers| && WithinRetries(c, s.workers[i]) && WorkerStep(c, s, i, e) == Some(t)
    requires e.Ask? || e.Accept? || e.Refuse?
    ensures Pays(c, s, i, t)
  {
  }

  lemma RetryUses(c: Config, s: State, i: nat, e: WorkerEvent, t: State)
    requires i < |s.workers| && WithinRetries(c, s.workers[i]) && WorkerStep(c, s, i, e) == Some(t)
    requires e.Retry? || e.Wake? || e.GiveUp?
    ensures Pays(c, s, i, t)
  {
  }

  lemma ChunkUses(c: Config, s: State, i: nat, e: WorkerEvent, t: State)
    requires i < |s.workers| && WithinRetries(c, s.workers[i]) && WorkerStep(c, s, i, e) == Some(t)
    requires e.Read? || e.WriteFault? || e.Count? || e.Publish? || e.Save? || e.Check?
    ensures Pays(c, s, i, t)
  {
  }

  lemma ProbeFaultIsFrugal(c: Config, s: State)
    requires Frugal(c, s) && s.runner.Probing? && s.runner.url < c.mirrors
    ensures Frugal(c, ProbeFaultStep(c, s))
  {
    QuotaGrows(c, s, s.runner.url);
  }

  lemma PlanIsFrugal(c: Config, s: State, total: int, ranged: bool, segs: seq<Segment>)
    requires Frugal(c, s) && s.runner.Probing? && s.runner.url < c.mirrors
    ensures Frugal(c, PlanStep(s, total, ranged, segs))
  {
    QuotaGrows(c, s, s.runner.url);
  }

  /** The probing steps that send nothing. */
  lemma ProbeWaitIsFrugal(c: Config, s: State, e: RunnerEvent, t: State)
    requires Inv(c, s) && Frugal(c, s) && RunnerStep(c, s, e) == Some(t)
    requires e.Mkdir? || e.ProbeAbort? || e.ProbeWake?
    ensures Frugal(c, t)
  {
    if s.runner.Probing? || s.runner.ProbeBackoff? {
      QuotaGrows(c, s, s.runner.url);
    }
  }

  lemma OpenIsFrugal(c: Config, s: State, ok: bool, t: State)
    requires Frugal(c, s) && s.runner.Mirror? && s.runner.url < c.mirrors && RunnerStep(c, s, Open(ok)) == Some(t)
    ensures Frugal(c, t)
  {
    QuotaGrows(c, s, s.runner.url);
    UsedIdle(c, |s.segments|);
  }

  lemma LaunchIsFrugal(c: Config, s: State)
    requires Frugal(c, s) && s.runner.Launching? && LaunchedUpTo(s, s.runner.next)
    ensures Frugal(c, LaunchStep(s))
  {
    var t := LaunchStep(s);
    if s.runner.next < |s.workers| {
      UsedUpdate(c, s.workers, s.runner.next, Asking(0));
    }
    SameQuota(c, s, t, s.runner.url);
  }

  lemma SameQuota(c: Config, s: State, t: State, url: nat)
    requires |t.segments| == |s.segments|
    ensures FetchQuota(c, t, url) == FetchQuota(c, s, url)
  {
  }

  lemma JoinIsFrugal(c: Config, s: State)
    requires Frugal(c, s) && s.runner.Waiting? && s.runner.url < c.mirrors && |s.workers| == |s.segments|
    ensures Frugal(c, JoinStep(c, s))
  {
    var t := JoinStep(c, s);
    QuotaGrows(c, s, s.runner.url);
    UsedBound(c, s.workers);
    assert t.segments == s.segments && t.fetches == s.fetches && t.probes == s.probes;
  }

  /** Steps that send nothing. */
  lemma LocalStepIsFrugal(c: Config, s: State, e: RunnerEvent, t: State)
    requires Frugal(c, s) && RunnerStep(c, s, e) == Some(t)
    requires e.Allocate? || e.SaveFirst? || e.Verify?
    ensures Frugal(c, t)
  {
  }

  lemma RunnerIsFrugal(c: Config, s: State, e: RunnerEvent, t: State)
    requires Inv(c, s) && Frugal(c, s) && RunnerStep(c, s, e) == Some(t)
    ensures Frugal(c, t)
  {
    match e {
      case Open(ok) => OpenIsFrugal(c, s, ok, t);
      case Launch => LaunchIsFrugal(c, s);
      case Join => JoinIsFrugal(c, s);
      case Allocate(_) => LocalStepIsFrugal(c, s, e, t);
      case SaveFirst(_) => LocalStepIsFrugal(c, s, e, t);
      case Verify(_) => LocalStepIsFrugal(c, s, e, t);
      case ProbeFault => ProbeFaultIsFrugal(c, s);
      case ProbeReply(total, ranged, segs) => PlanIsFrugal(c, s, total, ranged, segs);
      case _ => ProbeWaitIsFrugal(c, s, e, t);
    }
  }

  /** Control calls send nothing; a new cycle starts from 0. */
  lemma CallerSendsNothing(c: Config, s: State, k: nat, e: CallEvent, t: State)
    requires CallerStep(c, s, k, e) == Some(t)
    ensures t.workers == s.workers && t.segments == s.segments
    ensures if e.Spawn? then t.runner == Starting && t.probes == 0 && t.fetches == 0
            else t.runner == s.runner && t.probes == s.probes && t.fetches == s.fetches
  {
  }

  lemma FrugalDependsOn(c: Config, s: State, t: State)
    requires Frugal(c, s) && t.workers == s.workers && t.segments == s.segments
    requires t.runner == s.runner && t.probes == s.probes && t.fetches == s.fetches
    ensures Frugal(c, t)
  {
  }

  lemma CallerIsFrugal(c: Config, s: State, k: nat, e: CallEvent, t: State)
    requires Frugal(c, s) && CallerStep(c, s, k, e) == Some(t)
    ensures Frugal(c, t)
  {
    CallerSendsNothing(c, s, k, e, t);
    if !e.Spawn? {
      FrugalDependsOn(c, s, t);
    }
  }

  lemma StepIsFrugal(c: Config, s: State, a: Action, t: State)
    requires Inv(c, s) && Frugal(c, s) && Step(c, s, a) == Some(t)
    ensures Frugal(c, t)
  {
    match a {
      case OfWorker(i, e) =>
        assert !s.workers[i].Idle?;
        WorkerIsFrugal(c, s, i, e, t);
      case OfRunner(e) => RunnerIsFrugal(c, s, e, t);
      case OfCaller(k, e) => CallerIsFrugal(c, s, k, e, t);
      case Restart(from) =>
    }
  }

  lemma {:induction false} RunIsFrugal(c: Config, s: State, acts: seq<Action>, t: State)
    requires Inv(c, s) && Frugal(c, s) && Run(c, s, acts) == Some(t)
    ensures Inv(c, t) && Frugal(c, t)
    decreases |acts|
  {
    if acts != [] {
      var mid := Step(c, s, acts[0]).value;
      StepKeeps(c, s, acts[0], mid);
      StepIsFrugal(c, s, acts[0], mid);
      RunIsFrugal(c, mid, acts[1..], t);
    }
  }

  /** One Resume cycle probes each mirror at most maxRetry+1 times, and fetches each segment from each mirror
      at most maxRetry+1 times. */
  lemma EffortIsBounded(c: Config, acts: seq<Action>, s: State)
    requires Serialised(c) && Reaches(c, acts, s)
    ensures s.probes <= c.mirrors * (c.maxRetry + 1)
    ensures s.fetches <= c.mirrors * (|s.segments| * (c.maxRetry + 1))
  {
    InitIsSafe(c);
    RunIsFrugal(c, Init(c), acts, s);
    FrugalIsBounded(c, s);
  }

  lemma FrugalIsBounded(c: Config, s: State)
    requires Frugal(c, s) && RunnerOk(c, s) && |s.workers| == |s.segments|
    ensures s.probes <= ProbeQuota(c, c.mirrors)
    ensures s.fetches <= FetchQuota(c, s, c.mirrors)
  {
    UsedBound(c, s.workers);
    match s.runner {
      case Probing(url, _) => QuotaGrows(c, s, url);
      case ProbeBackoff(url, _) => QuotaGrows(c, s, url);
      case Mirror(url) => QuotaGrows(c, s, url);
      case Launching(url, _) => QuotaGrows(c, s, url);
      case Waiting(url) => QuotaGrows(c, s, url);
      case _ =>
    }
  }
}
