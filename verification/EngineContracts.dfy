/** The engines meet what the scheduler assumes of a task: their own goroutines only drift, and their calls do what
    the scheduler's model of a call says. */
module EngineContracts {
  import H = HttpEngine
  import HT = HttpEngineTheorems
  import S = Scheduler
  import SS = SchedulerSpec
  import T = TorrentEngine
  import opened Wrappers

  /** A worker or runner of an HTTP task never makes it Active and never touches a cancelled task. */
  lemma HttpTaskDrifts(c: H.Config, acts: seq<H.Action>, s: H.State, a: H.Action, t: H.State)
    requires HT.Serialised(c) && HT.Reaches(c, acts, s)
    requires (a.OfWorker? || a.OfRunner?) && H.Step(c, s, a) == Some(t)
    ensures S.MayBecome(s.status, t.status)
  {
    HT.ReachableIsSafe(c, acts, s);
    if a.OfWorker? {
      WorkerKeepsStatus(c, s, a.i, a.worker, t);
    } else {
      RunnerDrifts(c, s, a.event, t);
    }
  }

  lemma WorkerKeepsStatus(c: H.Config, s: H.State, i: nat, e: H.WorkerEvent, t: H.State)
    requires H.WorkerStep(c, s, i, e) == Some(t)
    ensures t.status == s.status
  {
  }

  lemma RunnerDrifts(c: H.Config, s: H.State, e: H.RunnerEvent, t: H.State)
    requires s.runner.NoRunner? || s.status.Active?
    requires H.RunnerStep(c, s, e) == Some(t)
    ensures S.MayBecome(s.status, t.status)
  {
  }

  /** Resume takes an HTTP task where the scheduler expects; Pause and Cancel do so relative to the status
      their wait ends in. */
  lemma HttpCallsConform(c: H.Config, acts: seq<H.Action>, s: H.State, t: H.State)
    requires HT.Serialised(c) && HT.Reaches(c, acts, s)
    ensures H.CallerStep(c, s, 0, H.Resume) == Some(t) ==> t.status == SS.Apply(SS.Resume, s.status)
    ensures s.ctl == [H.Pausing] && H.CallerStep(c, s, 0, H.Return) == Some(t) ==> t.status == SS.Apply(SS.Pause, s.status)
    ensures s.ctl == [H.Cancelling] && H.CallerStep(c, s, 0, H.Return) == Some(t) ==> t.status == SS.Apply(SS.Cancel, s.status)
  {
    HT.ReachableIsSafe(c, acts, s);
  }

  /** The watcher and the kill switch of a torrent only drift its status. */
  lemma TorrentDrifts(proxied: bool, acts: seq<T.Action>, s: T.State, a: T.Action, t: T.State)
    requires T.Reaches(proxied, acts, s) && T.OfThread(a) && T.Step(s, a) == Some(t)
    ensures S.MayBecome(s.status, t.status)
  {
    T.RunKeeps(T.Init(proxied), acts, s);
  }

  /** A torrent's calls, run without interference, are the scheduler's. */
  lemma TorrentCallsConform(s: T.State, t: T.State, u: T.State, ok: bool)
    requires T.Inv(s) && s.call.Ready?
    ensures T.Step(s, T.Pause) == Some(t) ==> t.status == SS.Apply(SS.Pause, s.status)
    ensures T.Step(s, T.Resume) == Some(t) && !t.call.Resuming? ==> t.status == SS.Apply(SS.Resume, s.status)
    ensures T.Step(s, T.Resume) == Some(t) && t.call.Resuming? && T.Step(t, T.Proceed(ok)) == Some(u)
      ==> u.status == S.Outcome(SS.Resume, s.status, !ok && !s.started)
    ensures T.Step(s, T.Cancel) == Some(t) && T.Step(t, T.FinishCancel) == Some(u) ==> u.status == SS.Apply(SS.Cancel, s.status)
  {
  }
}
