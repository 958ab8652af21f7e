/** The torrent task as three threads that share a status: control calls, the download watcher and the kill switch. */
module TorrentEngine {
  import Runs
  import opened TaskStatus
  import opened Wrappers

  /** The watcher waits for metadata, then for completion. */
  datatype Watcher = NotSpawned | WaitInfo | WaitComplete | WatcherGone

  /** The kill switch waits for its ticker, or for the result of a leak check. */
  datatype Switch = NoSwitch | Waiting | Checking | SwitchGone

  /** A control call between two of its critical sections. */
  datatype Call = Ready | Resuming(alreadyStarted: bool) | SpawningSwitch | SpawningWatcher | Cancelling

  datatype State = State(
    proxied: bool, status: Status,
    started: bool,     // the client and the torrent exist
    allowed: bool,     // data download is allowed
    cancelled: bool,   // the context is done
    watcher: Watcher, killSwitch: Switch, call: Call,
    tripped: bool,     // the kill switch has fired at some time
    finished: bool)    // the completion time is set

  datatype Action =
    | Resume | Proceed(ok: bool) | SpawnSwitch | SpawnWatcher | Pause | Cancel | FinishCancel
    | GotInfo | AllPieces | WatcherQuits
    | Ticked | NoLeak | Leak | SwitchQuits

  function Init(proxied: bool): State {
    State(proxied, Pending, false, false, false, NotSpawned, NoSwitch, Ready, false, false)
  }

  /** The actions of the background threads. */
  predicate OfThread(a: Action) {
    a.GotInfo? || a.AllPieces? || a.WatcherQuits? || a.Ticked? || a.NoLeak? || a.Leak? || a.SwitchQuits?
  }

  function CallStep(s: State, a: Action): Option<State> {
    match a
    case Resume =>
      if !s.call.Ready? then None
      else if s.status.Active? || s.status.Complete? || s.status.Cancelled? then Some(s)
      else Some(s.(call := Resuming(s.started)))
    case Proceed(ok) =>
      // The status is not looked at again here.
      if !s.call.Resuming? then None
      else if s.call.alreadyStarted then Some(s.(allowed := true, status := Active, call := Ready))
      else if !ok then Some(s.(status := Error, call := Ready))
      else Some(s.(started := true, allowed := true, cancelled := false, status := Active,
                   call := if s.proxied then SpawningSwitch else SpawningWatcher))
    case SpawnSwitch =>
      if s.call.SpawningSwitch? then Some(s.(killSwitch := Waiting, call := SpawningWatcher)) else None
    case SpawnWatcher => if s.call.SpawningWatcher? then Some(s.(watcher := WaitInfo, call := Ready)) else None
    case Pause =>
      if !s.call.Ready? then None
      else if !s.status.Active? || !s.started then Some(s)
      else Some(s.(allowed := false, status := Paused))
    case Cancel => if s.call.Ready? then Some(s.(cancelled := s.started, call := Cancelling)) else None
    case FinishCancel =>
      // After wg.Wait.
      if s.call.Cancelling? && (s.watcher.NotSpawned? || s.watcher.WatcherGone?)
         && (s.killSwitch.NoSwitch? || s.killSwitch.SwitchGone?)
      then Some(s.(status := Cancelled, call := Ready)) else None
    case _ => None
  }

  function ThreadStep(s: State, a: Action): Option<State> {
    match a
    case GotInfo => if s.watcher.WaitInfo? then Some(s.(watcher := WaitComplete)) else None
    case AllPieces =>
      if s.watcher.WaitComplete?
      then Some(s.(status := if s.status.Active? then Complete else s.status, finished := true, watcher := WatcherGone))
      else None
    case WatcherQuits =>
      if s.cancelled && (s.watcher.WaitInfo? || s.watcher.WaitComplete?) then Some(s.(watcher := WatcherGone)) else None
    case Ticked => if s.killSwitch.Waiting? then Some(s.(killSwitch := Checking)) else None
    case NoLeak => if s.killSwitch.Checking? then Some(s.(killSwitch := Waiting)) else None
    case Leak =>
      if s.killSwitch.Checking?
      then Some(s.(allowed := if s.started then false else s.allowed, status := Error, killSwitch := SwitchGone, tripped := true))
      else None
    case SwitchQuits => if s.cancelled && s.killSwitch.Waiting? then Some(s.(killSwitch := SwitchGone)) else None
    case _ => None
  }

  function Step(s: State, a: Action): Option<State> {
    if OfThread(a) then ThreadStep(s, a) else CallStep(s, a)
  }

  ghost function Run(s: State, acts: seq<Action>): Option<State> {
    Runs.After(Step, s, acts)
  }

  // ---------------------------------------------------------------- what holds in every run

  predicate ThreadsGone(s: State) {
    (s.watcher.NotSpawned? || s.watcher.WatcherGone?) && (s.killSwitch.NoSwitch? || s.killSwitch.SwitchGone?)
  }

  ghost predicate Inv(s: State) {
    && (s.status.Paused? ==> s.started && !s.allowed)
    && (s.started && s.status.Error? ==> !s.allowed && s.tripped)
    && (s.tripped ==> s.killSwitch.SwitchGone? && s.proxied)
    && (!s.started ==> s.watcher.NotSpawned? && s.killSwitch.NoSwitch? && !s.cancelled && !s.tripped && !s.allowed)
    && (!s.started ==> s.status.Pending? || s.status.Error? || s.status.Cancelled?)
    && (s.started ==> !s.status.Pending?)
    && (s.status.Cancelled? ==> ThreadsGone(s) && (s.call.Ready? || s.call.Cancelling?))
    && (s.call.Resuming? ==> s.call.alreadyStarted == s.started && !s.cancelled)
    && (s.call.SpawningSwitch? ==> s.proxied && s.killSwitch.NoSwitch? && s.watcher.NotSpawned? && s.status.Active? && s.started)
    && (s.call.SpawningWatcher? ==> s.watcher.NotSpawned? && s.started && !s.cancelled && (s.status.Active? || s.tripped))
    && (s.cancelled ==> s.call.Cancelling? || s.status.Cancelled?)
    && (s.call.Cancelling? && s.started ==> s.cancelled)
    && (!s.proxied ==> s.killSwitch.NoSwitch?)
    && (s.finished ==> s.watcher.WatcherGone?)
    && (s.watcher.WatcherGone? ==> s.finished || s.cancelled)
    && (s.started && s.watcher.NotSpawned? ==> s.call.SpawningSwitch? || s.call.SpawningWatcher?)
    && (s.status.Complete? ==> s.finished)
    && (s.proxied && s.started && !s.call.SpawningSwitch? && !s.cancelled ==>
          !s.killSwitch.NoSwitch? && (s.killSwitch.SwitchGone? <==> s.tripped))
  }

  lemma WatcherStepKeeps(s: State, a: Action, t: State)
    requires Inv(s) && ThreadStep(s, a) == Some(t) && (a.GotInfo? || a.AllPieces? || a.WatcherQuits?)
    ensures Inv(t)
  {
  }

  lemma SwitchStepKeeps(s: State, a: Action, t: State)
    requires Inv(s) && ThreadStep(s, a) == Some(t) && (a.Ticked? || a.NoLeak? || a.Leak? || a.SwitchQuits?)
    ensures Inv(t)
  {
  }

  lemma ResumeStepKeeps(s: State, a: Action, t: State)
    requires Inv(s) && CallStep(s, a) == Some(t) && (a.Resume? || a.Proceed? || a.SpawnSwitch? || a.SpawnWatcher?)
    ensures Inv(t)
  {
  }

  lemma StopStepKeeps(s: State, a: Action, t: State)
    requires Inv(s) && CallStep(s, a) == Some(t) && (a.Pause? || a.Cancel? || a.FinishCancel?)
    ensures Inv(t)
  {
  }

  lemma StepKeeps(s: State, a: Action, t: State)
    requires Inv(s) && Step(s, a) == Some(t)
    ensures Inv(t)
  {
    if a.GotInfo? || a.AllPieces? || a.WatcherQuits? {
      WatcherStepKeeps(s, a, t);
    } else if OfThread(a) {
      SwitchStepKeeps(s, a, t);
    } else if a.Pause? || a.Cancel? || a.FinishCancel? {
      StopStepKeeps(s, a, t);
    } else {
      ResumeStepKeeps(s, a, t);
    }
  }

  lemma {:induction false} RunKeeps(s: State, acts: seq<Action>, t: State)
    requires Inv(s) && Run(s, acts) == Some(t)
    ensures Inv(t)
    decreases |acts|
  {
    if acts != [] {
      var mid := Step(s, acts[0]).value;
      StepKeeps(s, acts[0], mid);
      RunKeeps(mid, acts[1..], t);
    }
  }

  ghost predicate Reaches(proxied: bool, acts: seq<Action>, t: State) {
    Run(Init(proxied), acts) == Some(t)
  }

  /** A paused task, and one stopped by its kill switch, downloads nothing. */
  lemma StoppedMeansDisallowed(proxied: bool, acts: seq<Action>, s: State)
    requires Reaches(proxied, acts, s)
    ensures s.status.Paused? ==> !s.allowed
    ensures s.status.Error? && s.tripped ==> !s.allowed
    ensures s.allowed ==> s.status.Active? || s.status.Complete? || s.status.Cancelled?
  {
    RunKeeps(Init(proxied), acts, s);
  }

  /** Nobody asks for a Resume. */
  predicate NoResume(acts: seq<Action>) {
    forall i :: 0 <= i < |acts| ==> !acts[i].Resume?
  }

  /** Once the kill switch has put the task in Error with no Resume between its two halves, it stays stopped until
      someone asks for a Resume: every other step leaves it in Error, or cancels it. */
  lemma {:induction false} TripSticksUntilResumed(s: State, acts: seq<Action>, t: State)
    requires Inv(s) && s.status.Error? && s.tripped && !s.call.Resuming? && Run(s, acts) == Some(t)
    requires NoResume(acts)
    ensures t.status.Error? || t.status.Cancelled?
    ensures !t.allowed
    decreases |acts|
  {
    if acts != [] {
      var mid := Step(s, acts[0]).value;
      StepKeeps(s, acts[0], mid);
      TripSticksOneStep(s, acts[0], mid);
      assert forall i :: 0 <= i < |acts| - 1 ==> acts[1..][i] == acts[i + 1];
      if mid.status.Cancelled? {
        CancelledForever(mid, acts[1..], t);
      } else {
        TripSticksUntilResumed(mid, acts[1..], t);
      }
    }
  }

  lemma TripSticksOneStep(s: State, a: Action, t: State)
    requires Inv(s) && s.status.Error? && s.tripped && !s.call.Resuming? && Step(s, a) == Some(t) && !a.Resume?
    ensures (t.status.Error? && t.tripped && !t.call.Resuming?) || t.status.Cancelled?
    ensures !t.allowed
  {
  }

  /** In no run without a request for a Resume does the task leave Error and Cancelled, or download anything. */
  ghost predicate StaysStopped(s: State) {
    forall acts, t :: NoResume(acts) && Run(s, acts) == Some(t) ==> (t.status.Error? || t.status.Cancelled?) && !t.allowed
  }

  /** A trip holds exactly when it does not fall between the two halves of a Resume. */
  lemma TripHoldsUnlessResuming(s: State)
    requires Inv(s) && s.status.Error? && s.tripped
    ensures StaysStopped(s) <==> !s.call.Resuming?
  {
    if s.call.Resuming? {
      var acts, t := Runs.Take(Step, s, [], s, Proceed(true));
      assert NoResume(acts) && t.status.Active?;
    } else {
      forall acts, t | NoResume(acts) && Run(s, acts) == Some(t)
        ensures (t.status.Error? || t.status.Cancelled?) && !t.allowed
      {
        TripSticksUntilResumed(s, acts, t);
      }
    }
  }

  /** A cancelled task stays cancelled, has no thread left, and its download permission no longer changes. */
  lemma {:induction false} CancelledForever(s: State, acts: seq<Action>, t: State)
    requires Inv(s) && s.status.Cancelled? && Run(s, acts) == Some(t)
    ensures t.status.Cancelled? && ThreadsGone(t) && t.allowed == s.allowed
    decreases |acts|
  {
    if acts != [] {
      var mid := Step(s, acts[0]).value;
      StepKeeps(s, acts[0], mid);
      CancelledForever(mid, acts[1..], t);
    }
  }

  /** A proxied task that is running with no call in progress is being watched for leaks exactly when its
      kill switch has not fired before: a Resume after a trip does not start it again. */
  lemma WatchedUnlessTripped(acts: seq<Action>, s: State)
    requires Reaches(true, acts, s) && s.status.Active? && s.call.Ready?
    ensures s.killSwitch.Waiting? || s.killSwitch.Checking? <==> !s.tripped
  {
    RunKeeps(Init(true), acts, s);
    ProxySettingFixed(Init(true), acts, s);
  }

  /** A task that is running with no call in progress still has its download watcher exactly when the torrent has not
      finished before: a Resume after a completion that found the task paused does not start it again. */
  lemma WatcherUnlessFinished(proxied: bool, acts: seq<Action>, s: State)
    requires Reaches(proxied, acts, s) && s.status.Active? && s.call.Ready?
    ensures s.watcher.WaitInfo? || s.watcher.WaitComplete? <==> !s.finished
  {
    RunKeeps(Init(proxied), acts, s);
  }

  /** In no further run does the task become Complete. */
  ghost predicate NeverCompletes(s: State) {
    forall acts, t :: Run(s, acts) == Some(t) ==> !t.status.Complete?
  }

  /** Such a task can still become Complete exactly when it has not finished before; otherwise it is Active until it is
      paused, fails or is cancelled. */
  lemma CompletesUnlessFinished(proxied: bool, acts: seq<Action>, s: State)
    requires Reaches(proxied, acts, s) && s.status.Active? && s.call.Ready?
    ensures NeverCompletes(s) <==> s.finished
  {
    RunKeeps(Init(proxied), acts, s);
    if s.finished {
      forall more, t | Run(s, more) == Some(t) ensures !t.status.Complete? {
        FinishedStaysIncomplete(s, more, t);
      }
    } else {
      var last, t := CanComplete(s);
      assert t.status.Complete?;
    }
  }

  lemma {:induction false} FinishedStaysIncomplete(s: State, acts: seq<Action>, t: State)
    requires s.watcher.WatcherGone? && !s.status.Complete? && !s.call.SpawningSwitch? && !s.call.SpawningWatcher?
    requires Inv(s) && s.started && Run(s, acts) == Some(t)
    ensures !t.status.Complete?
    decreases |acts|
  {
    if acts != [] {
      var mid := Step(s, acts[0]).value;
      StepKeeps(s, acts[0], mid);
      FinishedStaysIncomplete(mid, acts[1..], t);
    }
  }

  lemma CanComplete(s: State) returns (acts: seq<Action>, t: State)
    requires s.status.Active? && (s.watcher.WaitInfo? || s.watcher.WaitComplete?)
    ensures Run(s, acts) == Some(t) && t.status.Complete?
  {
    acts, t := [], s;
    if s.watcher.WaitInfo? {
      acts, t := Runs.Take(Step, s, acts, t, GotInfo);
    }
    acts, t := Runs.Take(Step, s, acts, t, AllPieces);
  }

  /** The run behind it: the last piece arrives while the task is paused, and a later Resume finds no watcher. */
  lemma FinishedWhilePaused() returns (acts: seq<Action>, t: State)
    ensures Reaches(true, acts, t) && t.status.Active? && t.call.Ready? && t.finished && t.watcher.WatcherGone?
  {
    var s := Init(true);
    acts, t := Starts();
    acts, t := Runs.Take(Step, s, acts, t, GotInfo);
    acts, t := Runs.Take(Step, s, acts, t, Pause);
    acts, t := Runs.Take(Step, s, acts, t, AllPieces);
    acts, t := Runs.Take(Step, s, acts, t, Resume);
    acts, t := Runs.Take(Step, s, acts, t, Proceed(true));
  }

  lemma {:induction false} ProxySettingFixed(s: State, acts: seq<Action>, t: State)
    requires Run(s, acts) == Some(t)
    ensures t.proxied == s.proxied
    decreases |acts|
  {
    if acts != [] {
      var mid := Step(s, acts[0]).value;
      ProxyUntouched(s, acts[0], mid);
      ProxySettingFixed(mid, acts[1..], t);
    }
  }

  lemma ProxyUntouched(s: State, a: Action, t: State)
    requires Step(s, a) == Some(t)
    ensures t.proxied == s.proxied
  {
    if OfThread(a) {
      ThreadLeavesProxy(s, a, t);
    } else {
      CallLeavesProxy(s, a, t);
    }
  }

  lemma ThreadLeavesProxy(s: State, a: Action, t: State)
    requires ThreadStep(s, a) == Some(t)
    ensures t.proxied == s.proxied
  {
  }

  lemma CallLeavesProxy(s: State, a: Action, t: State)
    requires CallStep(s, a) == Some(t)
    ensures t.proxied == s.proxied
  {
  }

  /** A first Resume of a proxied task, up to its running threads. */
  lemma Starts() returns (acts: seq<Action>, t: State)
    ensures Reaches(true, acts, t)
    ensures t == State(true, Active, true, true, false, WaitInfo, Waiting, Ready, false, false)
  {
    var s := Init(true);
    acts, t := Runs.Take(Step, s, [], s, Resume);
    acts, t := Runs.Take(Step, s, acts, t, Proceed(true));
    acts, t := Runs.Take(Step, s, acts, t, SpawnSwitch);
    acts, t := Runs.Take(Step, s, acts, t, SpawnWatcher);
  }

  /** A kill switch that fires between the two halves of a Resume is overridden: the task runs again, unwatched. */
  lemma TripInsideResumeIsLost() returns (acts: seq<Action>, tripped: State, last: State)
    ensures Reaches(true, acts, tripped) && tripped.status.Error? && !tripped.allowed && tripped.call.Resuming?
    ensures Step(tripped, Proceed(true)) == Some(last)
    ensures last.status.Active? && last.allowed && last.killSwitch.SwitchGone?
  {
    var s := Init(true);
    acts, tripped := Starts();
    acts, tripped := Runs.Take(Step, s, acts, tripped, Pause);
    acts, tripped := Runs.Take(Step, s, acts, tripped, Resume);
    acts, tripped := Runs.Take(Step, s, acts, tripped, Ticked);
    acts, tripped := Runs.Take(Step, s, acts, tripped, Leak);
    last := Step(tripped, Proceed(true)).value;
  }

  /** An Error set by the kill switch survives the next critical section exactly when that section is not the second
      half of a Resume, nor the end of a Cancel. */
  lemma TripSurvivesStep(s: State, a: Action, t: State)
    requires Inv(s) && s.status.Error? && s.tripped && Step(s, a) == Some(t)
    ensures t.status.Error? <==> !a.Proceed? && !a.FinishCancel?
    ensures t.allowed <==> a.Proceed?
  {
  }
}
