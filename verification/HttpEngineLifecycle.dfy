/** What Pause, Cancel and Remove promise their caller, and why control calls must be serialised. */
module HttpEngineLifecycle {
  import opened HttpEngine
  import opened HttpEngineSafety
  import opened HttpEngineTheorems
  import Runs
  import opened TaskStatus
  import opened Wrappers

  /** The action is neither the start of a new run nor the removal of the files. */
  predicate NoNewWork(a: Action) {
    !a.Restart? && (a.OfCaller? ==> !a.call.Resume? && !a.call.Remove?)
  }

  /** No goroutine of the task can take a step. */
  ghost predicate Quiet(s: State) {
    && s.runner.NoRunner? && NoWorker(s)
    && forall k :: 0 <= k < |s.ctl| ==> (s.ctl[k].Ready? || s.ctl[k].Pausing? || s.ctl[k].Cancelling?)
  }

  lemma QuietStep(c: Config, s: State, a: Action, t: State)
    requires Quiet(s) && Step(c, s, a) == Some(t) && NoNewWork(a)
    ensures Quiet(t) && t == s.(status := t.status, cancelled := t.cancelled, ctl := t.ctl)
    ensures t.status == s.status || t.status.Cancelled? || (s.status.Active? && t.status.Paused?)
  {
    StoppedOnlyCalls(c, s, a);
    QuietCall(c, s, a.k, a.call, t);
  }

  lemma QuietCall(c: Config, s: State, k: nat, e: CallEvent, t: State)
    requires Quiet(s) && CallerStep(c, s, k, e) == Some(t) && !e.Resume? && !e.Remove?
    ensures Quiet(t) && t == s.(status := t.status, cancelled := t.cancelled, ctl := t.ctl)
    ensures t.status == s.status || t.status.Cancelled? || (s.status.Active? && t.status.Paused?)
  {
  }

  /** Once quiet, nothing on disk or in memory moves until the next Resume, Remove or restart. */
  lemma {:induction false} QuietUntilResumed(c: Config, s: State, acts: seq<Action>, t: State)
    requires Quiet(s) && Run(c, s, acts) == Some(t)
    requires forall i :: 0 <= i < |acts| ==> NoNewWork(acts[i])
    ensures Quiet(t)
    ensures t.file == s.file && t.saved == s.saved && t.segments == s.segments && t.downloaded == s.downloaded
    ensures !s.status.Active? ==> !t.status.Active?
    decreases |acts|
  {
    if acts != [] {
      var mid := Step(c, s, acts[0]).value;
      QuietStep(c, s, acts[0], mid);
      QuietUntilResumed(c, mid, acts[1..], t);
    }
  }

  /** The step is the last one of a Pause, Cancel or Remove. */
  ghost predicate EndsCall(c: Config, s: State, a: Action, t: State) {
    && Step(c, s, a) == Some(t) && a.OfCaller?
    && |s.ctl| == 1 && !s.ctl[0].Ready? && !s.ctl[0].Resuming? && t.ctl == [Ready]
  }

  /** Pause, Cancel and Remove return only after every writer has stopped, and never leave the task Active;
      what they leave behind then stays as it is until the caller asks for more. */
  lemma ReturnMeansStopped(c: Config, acts: seq<Action>, s: State, a: Action, t: State, later: seq<Action>, u: State)
    requires Serialised(c) && Reaches(c, acts, s) && EndsCall(c, s, a, t)
    requires Run(c, t, later) == Some(u) && forall i :: 0 <= i < |later| ==> NoNewWork(later[i])
    ensures t.runner.NoRunner? && NoWorker(t) && !t.status.Active?
    ensures s.ctl[0].Pausing? ==> t.status == if s.status.Active? then Paused else s.status
    ensures !s.ctl[0].Pausing? ==> t.status.Cancelled?
    ensures u.file == t.file && u.segments == t.segments && u.saved == t.saved && u.downloaded == t.downloaded
    ensures u.runner.NoRunner? && NoWorker(u) && !u.status.Active?
  {
    ReachableIsSafe(c, acts, s);
    StatusAtEnd(c, s, a, t);
    QuietUntilResumed(c, t, later, u);
  }

  lemma StatusAtEnd(c: Config, s: State, a: Action, t: State)
    requires Inv(c, s) && EndsCall(c, s, a, t)
    ensures Quiet(t) && !t.status.Active?
    ensures s.ctl[0].Pausing? ==> t.status == if s.status.Active? then Paused else s.status
    ensures !s.ctl[0].Pausing? ==> t.status.Cancelled?
  {
    assert s.runner.NoRunner? ==> NoWorker(s);
    assert a.k == 0;
  }

  /** A task is Active without a runner only while a control call is in progress, and a Resume starts its runner
      only when no goroutine of an earlier one is left: there is never a second runner. */
  lemma ActiveMeansRunning(c: Config, acts: seq<Action>, s: State)
    requires Serialised(c) && Reaches(c, acts, s)
    ensures s.status.Active? && s.ctl == [Ready] ==> !s.runner.NoRunner?
    ensures !s.runner.NoRunner? ==> s.status.Active?
    ensures s.ctl == [Resuming] ==> s.runner.NoRunner? && NoWorker(s)
    ensures (exists i :: 0 <= i < |s.workers| && !s.workers[i].Idle?) ==> s.runner.Launching? || s.runner.Waiting?
  {
    ReachableIsSafe(c, acts, s);
  }

  /** A checksum that does not match ends the cycle in Error, and no further step makes the task Complete until it is
      resumed. */
  lemma ChecksumFailureSticks(c: Config, acts: seq<Action>, s: State, t: State, later: seq<Action>, u: State)
    requires Serialised(c) && Reaches(c, acts, s) && Step(c, s, OfRunner(Verify(false))) == Some(t)
    requires Run(c, t, later) == Some(u) && forall i :: 0 <= i < |later| ==> NoNewWork(later[i])
    ensures t.status.Error? && !u.status.Complete?
  {
    ReachableIsSafe(c, acts, s);
    StepKeeps(c, s, OfRunner(Verify(false)), t);
    IncompleteWhileStopped(c, t, later, u);
  }

  lemma {:induction false} IncompleteWhileStopped(c: Config, s: State, acts: seq<Action>, t: State)
    requires Stopped(s) && !s.status.Complete? && Run(c, s, acts) == Some(t)
    requires forall i :: 0 <= i < |acts| ==> NoNewWork(acts[i])
    ensures !t.status.Complete?
    decreases |acts|
  {
    if acts != [] {
      var mid := Step(c, s, acts[0]).value;
      StoppedStep(c, s, acts[0], mid);
      assert forall i :: 0 <= i < |acts| - 1 ==> acts[1..][i] == acts[i + 1];
      IncompleteWhileStopped(c, mid, acts[1..], t);
    }
  }

  /** No goroutine is left, and none is about to start. */
  ghost predicate Stopped(s: State) {
    s.runner.NoRunner? && NoWorker(s) && forall k :: 0 <= k < |s.ctl| ==> !s.ctl[k].Resuming?
  }

  lemma StoppedStep(c: Config, s: State, a: Action, t: State)
    requires Stopped(s) && Step(c, s, a) == Some(t) && NoNewWork(a)
    ensures Stopped(t) && (t.status.Complete? ==> s.status.Complete?)
  {
    StoppedOnlyCalls(c, s, a);
    StoppedCall(c, s, a.k, a.call, t);
  }

  lemma StoppedOnlyCalls(c: Config, s: State, a: Action)
    requires Stopped(s) && Step(c, s, a).Some? && NoNewWork(a)
    ensures a.OfCaller?
  {
  }

  lemma StoppedCall(c: Config, s: State, k: nat, e: CallEvent, t: State)
    requires Stopped(s) && CallerStep(c, s, k, e) == Some(t) && !e.Resume?
    ensures Stopped(t) && (t.status.Complete? ==> s.status.Complete?)
  {
    assert t.workers == s.workers && t.runner == s.runner;
  }

  // ---------------------------------------------------------------- what an Error comes from

  /** Something outside the task went wrong: a server, the network, the disk or the checksum. */
  predicate Fault(a: Action) {
    match a
    case OfWorker(_, e) => e == HttpEngine.Refuse(Faulty) || (e.Read? && e.after.Broken?) || e.WriteFault?
    case OfRunner(e) =>
      e.ProbeFault? || e == Mkdir(false) || e == Allocate(false) || e == SaveFirst(false) || e == HttpEngine.Open(false)
      || e == Verify(false)
    case _ => false
  }

  /** A goroutine that has met no fault. */
  predicate Unharmed(w: Worker) {
    match w
    case Failed(_, why) => why == Canceled
    case Wrote(_, _, _, after) => !after.Broken?
    case Counted(_, _, _, after) => !after.Broken?
    case Published(_, _, _, after) => !after.Broken?
    case Settling(_, _, after) => !after.Broken?
    case _ => true
  }

  ghost predicate Calm(s: State) {
    && !s.status.Error? && (s.runner.Launching? || s.runner.Waiting? ==> s.failure != Some(Faulty))
    && (|s.ctl| == 1 && s.ctl[0].Pausing? ==> s.status.Active? || s.status.Complete?)
    && forall i :: 0 <= i < |s.workers| ==> Unharmed(s.workers[i])
  }

  lemma CalmWorker(c: Config, s: State, i: nat, e: WorkerEvent, t: State)
    requires Calm(s) && WorkerStep(c, s, i, e) == Some(t) && !Fault(OfWorker(i, e))
    ensures Calm(t)
  {
    CalmGoroutine(c, s, i, e, t);
  }

  lemma CalmGoroutine(c: Config, s: State, i: nat, e: WorkerEvent, t: State)
    requires WorkerStep(c, s, i, e) == Some(t) && !Fault(OfWorker(i, e)) && Unharmed(s.workers[i])
    ensures t.status == s.status && t.runner == s.runner && t.ctl == s.ctl && (t.failure == s.failure || t.failure == Some(Canceled))
    ensures i < |s.workers| == |t.workers| && t.workers == s.workers[i := t.workers[i]] && Unharmed(t.workers[i])
  {
  }

  lemma CalmRunner(c: Config, s: State, e: RunnerEvent, t: State)
    requires Calm(s) && RunnerStep(c, s, e) == Some(t) && !Fault(OfRunner(e))
    ensures Calm(t)
  {
    if e.Launch? || e.Join? {
      CalmMirror(c, s, e, t);
    } else {
      CalmSetup(c, s, e, t);
    }
  }

  lemma CalmMirror(c: Config, s: State, e: RunnerEvent, t: State)
    requires Calm(s) && RunnerStep(c, s, e) == Some(t) && (e.Launch? || e.Join?)
    ensures Calm(t)
  {
  }

  lemma CalmSetup(c: Config, s: State, e: RunnerEvent, t: State)
    requires Calm(s) && RunnerStep(c, s, e) == Some(t) && !Fault(OfRunner(e)) && !e.Launch? && !e.Join?
    ensures Calm(t)
  {
  }

  lemma CalmCall(c: Config, s: State, k: nat, e: CallEvent, t: State)
    requires Calm(s) && CallerStep(c, s, k, e) == Some(t)
    ensures Calm(t)
  {
  }

  lemma CalmStep(c: Config, s: State, a: Action, t: State)
    requires Calm(s) && Step(c, s, a) == Some(t) && !Fault(a)
    ensures Calm(t)
  {
    match a
    case OfWorker(i, e) => CalmWorker(c, s, i, e, t);
    case OfRunner(e) => CalmRunner(c, s, e, t);
    case OfCaller(k, e) => CalmCall(c, s, k, e, t);
    case Restart(_) =>
  }

  /** Without a fault no cycle ends in Error, whatever is paused, cancelled, resumed or restarted on the way; so a Pause
      leaves the task Paused, or Complete. */
  lemma {:induction false} OnlyFaultsFail(c: Config, s: State, acts: seq<Action>, t: State)
    requires Calm(s) && Run(c, s, acts) == Some(t)
    requires forall i :: 0 <= i < |acts| ==> !Fault(acts[i])
    ensures Calm(t) && !t.status.Error?
    decreases |acts|
  {
    if acts != [] {
      var mid := Step(c, s, acts[0]).value;
      CalmStep(c, s, acts[0], mid);
      assert forall i :: 0 <= i < |acts| - 1 ==> acts[1..][i] == acts[i + 1];
      OnlyFaultsFail(c, mid, acts[1..], t);
    }
  }

  /** In particular a cycle that a Pause interrupts is Paused when the Pause returns, unless it was complete by then. */
  lemma PauseEndsPaused(c: Config, acts: seq<Action>, s: State, more: seq<Action>, t: State, a: Action, u: State)
    requires Serialised(c) && Reaches(c, acts, s) && s.runner.Starting?
    requires Run(c, s, more) == Some(t) && (forall i :: 0 <= i < |more| ==> !Fault(more[i]))
    requires t.ctl == [Pausing] && EndsCall(c, t, a, u)
    ensures u.status.Paused? || u.status.Complete?
  {
    ReachableIsSafe(c, acts, s);
    OnlyFaultsFail(c, s, more, t);
    RunKeeps(c, s, more, t);
    StatusAtEnd(c, t, a, u);
  }

  lemma CancelledStep(c: Config, s: State, a: Action, t: State)
    requires Inv(c, s) && Step(c, s, a) == Some(t) && s.status.Cancelled? && !a.Restart?
    ensures t.status.Cancelled?
  {
    assert NoWorker(s);
  }

  lemma {:induction false} CancelledForever(c: Config, s: State, acts: seq<Action>, t: State)
    requires Inv(c, s) && s.status.Cancelled? && NoRestart(acts) && Run(c, s, acts) == Some(t)
    ensures t.status.Cancelled?
    decreases |acts|
  {
    if acts != [] {
      var mid := Step(c, s, acts[0]).value;
      CancelledStep(c, s, acts[0], mid);
      StepKeeps(c, s, acts[0], mid);
      assert forall i :: 0 <= i < |acts| - 1 ==> acts[1..][i] == acts[i + 1];
      CancelledForever(c, mid, acts[1..], t);
    }
  }

  /** In no run does a cancelled Task object ever leave Cancelled again. */
  ghost predicate CancelIsFinal(c: Config) {
    forall acts, s, more, t ::
      Reaches(c, acts, s) && s.status.Cancelled? && NoRestart(more) && Run(c, s, more) == Some(t) ==> t.status.Cancelled?
  }

  /** A Cancel that runs between the two halves of a Resume returns before the runner it should wait for exists. */
  lemma ResumeOvertakesCancel(c: Config) returns (acts: seq<Action>, s: State, more: seq<Action>, t: State)
    requires c.mirrors > 0 && c.callers >= 2
    ensures Reaches(c, acts, s) && s.status.Cancelled?
    ensures NoRestart(more) && Run(c, s, more) == Some(t) && t.status.Error?
  {
    var init := Init(c);
    acts, s := [], init;
    acts, s := Runs.Take(Stepper(c), init, acts, s, OfCaller(0, Resume));
    acts, s := Runs.Take(Stepper(c), init, acts, s, OfCaller(1, Cancel));
    acts, s := Runs.Take(Stepper(c), init, acts, s, OfCaller(1, Return));
    more, t := [], s;
    more, t := Runs.Take(Stepper(c), s, more, t, OfCaller(0, Spawn));
    more, t := Runs.Take(Stepper(c), s, more, t, OfRunner(Mkdir(false)));
  }

  /** Cancellation is final exactly when control calls never overlap. */
  lemma CancelIsFinalOnlyWhenSerialised(c: Config)
    requires c.mirrors > 0 && c.callers >= 1
    ensures CancelIsFinal(c) <==> c.callers == 1
  {
    if c.callers == 1 {
      forall acts, s, more, t | Reaches(c, acts, s) && s.status.Cancelled? && NoRestart(more) && Run(c, s, more) == Some(t)
        ensures t.status.Cancelled?
      {
        ReachableIsSafe(c, acts, s);
        CancelledForever(c, s, more, t);
      }
    } else {
      var acts, s, more, t := ResumeOvertakesCancel(c);
      assert !(t.status.Cancelled?);
    }
  }
}
