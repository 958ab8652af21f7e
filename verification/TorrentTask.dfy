/** The torrent task as its three threads run it, each over fields that the others change. */
module TorrentTask {
  import Runs
  import opened TaskStatus
  import opened TorrentEngine
  import opened Wrappers

  /** What one turn of the kill switch meets: whether a cancellation wins over the ticker, and the leak check. */
  datatype Turn = Turn(cancelWins: bool, leaked: bool)

  /** Check `k` is the first that found a leak. */
  predicate FirstLeak(turns: seq<Turn>, k: int) {
    0 <= k < |turns| && turns[k].leaked && forall j :: 0 <= j < k ==> !turns[j].leaked
  }

  predicate OfWatcher(a: Action) {
    a.GotInfo? || a.AllPieces? || a.WatcherQuits?
  }

  predicate OfSwitch(a: Action) {
    OfThread(a) && !OfWatcher(a)
  }

  /** What each thread may rely on while the others take a step. */
  lemma WatcherLeftAlone(s: State, a: Action, t: State)
    requires Inv(s) && (s.watcher.WaitInfo? || s.watcher.WaitComplete?) && !OfWatcher(a) && Step(s, a) == Some(t)
    ensures t.watcher == s.watcher && (s.cancelled ==> t.cancelled)
  {
  }

  lemma SwitchLeftAlone(s: State, a: Action, t: State)
    requires Inv(s) && (s.killSwitch.Waiting? || s.killSwitch.Checking?) && !OfSwitch(a) && Step(s, a) == Some(t)
    ensures t.killSwitch == s.killSwitch && t.started == s.started && (s.cancelled ==> t.cancelled)
  {
  }

  lemma CallLeftAlone(s: State, a: Action, t: State)
    requires Inv(s) && OfThread(a) && Step(s, a) == Some(t)
    ensures t.call == s.call && t.started == s.started && t.cancelled == s.cancelled && t.proxied == s.proxied
    ensures s.status.Cancelled? ==> t.status.Cancelled?
  {
  }

  /** The three kinds of thread. */
  datatype Thread = Caller | Watch | Guard

  predicate Mine(who: Thread, a: Action) {
    match who
    case Caller => !OfThread(a)
    case Watch => OfWatcher(a)
    case Guard => OfSwitch(a)
  }

  /** The thread is running, so that the others may not touch its part of the state. */
  predicate Running(who: Thread, s: State) {
    match who
    case Caller => true
    case Watch => s.watcher.WaitInfo? || s.watcher.WaitComplete?
    case Guard => s.killSwitch.Waiting? || s.killSwitch.Checking?
  }

  predicate Relies(who: Thread, s: State, t: State) {
    && (s.cancelled ==> t.cancelled)
    && match who
       case Caller => t.call == s.call && t.started == s.started && t.cancelled == s.cancelled && t.proxied == s.proxied
                      && (s.status.Cancelled? ==> t.status.Cancelled?)
       case Watch => t.watcher == s.watcher
       case Guard => t.killSwitch == s.killSwitch && t.started == s.started
  }

  lemma {:induction false} OthersLeaveUsAlone(who: Thread, s: State, acts: seq<Action>, t: State)
    requires Inv(s) && Running(who, s) && Run(s, acts) == Some(t)
    requires forall i :: 0 <= i < |acts| ==> !Mine(who, acts[i])
    ensures Inv(t) && Relies(who, s, t)
    decreases |acts|
  {
    if acts != [] {
      var mid := Step(s, acts[0]).value;
      StepKeeps(s, acts[0], mid);
      match who {
        case Caller => CallLeftAlone(s, acts[0], mid);
        case Watch => WatcherLeftAlone(s, acts[0], mid);
        case Guard => SwitchLeftAlone(s, acts[0], mid);
      }
      assert forall i :: 0 <= i < |acts| - 1 ==> acts[1..][i] == acts[i + 1];
      OthersLeaveUsAlone(who, mid, acts[1..], t);
    }
  }

  class Task {
    const proxied: bool
    var status: Status
    var started: bool
    var allowed: bool
    var cancelled: bool
    var finished: bool
    ghost var watcher: Watcher
    ghost var killSwitch: Switch
    ghost var call: Call
    ghost var tripped: bool
    ghost var history: seq<Action>

    ghost function View(): State
      reads this
    {
      State(proxied, status, started, allowed, cancelled, watcher, killSwitch, call, tripped, finished)
    }

    ghost predicate Valid()
      reads this
    {
      Reaches(proxied, history, View())
    }

    constructor (proxied: bool)
      ensures Valid() && this.proxied == proxied && View() == Init(proxied)
    {
      this.proxied := proxied;
      status, started, allowed, cancelled, finished := Pending, false, false, false, false;
      watcher, killSwitch, call, tripped, history := NotSpawned, NoSwitch, Ready, false, [];
    }

    lemma Safe()
      requires Valid()
      ensures Inv(View())
    {
      RunKeeps(Init(proxied), history, View());
    }

    /** Any number of steps of the other threads, or none when the world is `quiet`. */
    method Others(ghost who: Thread, ghost quiet: bool)
      requires Valid()
      modifies this
      ensures Valid() && old(history) <= history && (quiet ==> View() == old(View()))
      ensures forall i :: |old(history)| <= i < |history| ==> !Mine(who, history[i])
    {
    }

    /** What a thread still knows after the others have run. */
    method Yield(ghost who: Thread, ghost quiet: bool)
      requires Valid() && Running(who, View())
      modifies this
      ensures Valid() && old(history) <= history && (quiet ==> View() == old(View()))
      ensures Inv(View()) && Relies(who, old(View()), View())
    {
      ghost var before, past := View(), history;
      Safe();
      Others(who, quiet);
      ghost var rest := history[|past|..];
      assert history == past + rest;
      Runs.Concat(Step, Init(proxied), past, before, rest);
      OthersLeaveUsAlone(who, before, rest, View());
    }

    /** The fields now hold what action `a` makes of `before`. */
    ghost method Took(before: State, a: Action)
      requires Reaches(proxied, history, before) && Step(before, a) == Some(View())
      modifies `history
      ensures Valid() && history == old(history) + [a]
    {
      var longer, t := Runs.Take(Step, Init(proxied), history, before, a);
      history := longer;
    }

    // -------------------------------------------------------------- control calls

    /** Starts or continues the torrent; `startOk` says whether the client can be set up. */
    method Resume(startOk: bool, ghost quiet: bool) returns (ok: bool)
      requires Valid() && call.Ready?
      modifies this
      ensures Valid() && old(history) <= history && call.Ready?
      ensures !ok ==> !startOk && !started
      ensures quiet && (old(status).Active? || old(status).Complete? || old(status).Cancelled?) ==> ok && View() == old(View())
      ensures quiet && !(old(status).Active? || old(status).Complete? || old(status).Cancelled?) ==>
        && (ok <==> old(started) || startOk)
        && status == (if ok then Active else Error) && (ok ==> allowed)
    {
      Yield(Caller, quiet);
      ghost var before := View();
      if status.Active? || status.Complete? || status.Cancelled? {
        Took(before, TorrentEngine.Action.Resume);
        return true;
      }
      var alreadyStarted := started;
      call := Resuming(alreadyStarted);
      Took(before, TorrentEngine.Action.Resume);
      if alreadyStarted {
        Continue(quiet);
        return true;
      }
      ok := Start(startOk, quiet);
    }

    /** The second critical section of a Resume when the client exists. */
    method Continue(ghost quiet: bool)
      requires Valid() && call == Resuming(true)
      modifies this
      ensures Valid() && old(history) <= history && call.Ready?
      ensures status.Active? && allowed && started == old(started)
    {
      Yield(Caller, quiet);
      ghost var before := View();
      allowed, status := true, Active;
      call := Ready;
      Took(before, Proceed(true));
    }

    /** `start`, up to its goroutines. */
    method Start(startOk: bool, ghost quiet: bool) returns (ok: bool)
      requires Valid() && call == Resuming(false) && !started
      modifies this
      ensures Valid() && old(history) <= history && call.Ready?
      ensures ok == startOk && started == ok
      ensures quiet ==> status == (if ok then Active else Error) && (ok ==> allowed)
    {
      Yield(Caller, quiet);
      ghost var before := View();
      ok := startOk;
      if !ok {
        status := Error;
        call := Ready;
      } else {
        started, allowed, cancelled, status := true, true, false, Active;
        call := if proxied then SpawningSwitch else SpawningWatcher;
      }
      Took(before, Proceed(ok));
      if ok {
        Spawn(quiet);
      }
    }

    /** The goroutines at the end of `start`. */
    method Spawn(ghost quiet: bool)
      requires Valid() && (if proxied then call.SpawningSwitch? else call.SpawningWatcher?) && started
      modifies this
      ensures Valid() && old(history) <= history && call.Ready? && started
      ensures quiet ==> status == old(status) && allowed == old(allowed)
    {
      Safe();
      if proxied {
        Yield(Caller, quiet);
        ghost var before := View();
        killSwitch, call := Waiting, SpawningWatcher;
        Took(before, SpawnSwitch);
      }
      Yield(Caller, quiet);
      ghost var before := View();
      watcher, call := WaitInfo, Ready;
      Took(before, SpawnWatcher);
    }

    method Pause(ghost quiet: bool)
      requires Valid() && call.Ready?
      modifies this
      ensures Valid() && old(history) <= history && call.Ready?
      ensures !status.Active? && (status.Paused? ==> !allowed)
      ensures quiet ==> status == if old(status).Active? then Paused else old(status)
    {
      Yield(Caller, quiet);
      Safe();
      ghost var before := View();
      if status.Active? && started {
        allowed, status := false, Paused;
      }
      Took(before, TorrentEngine.Action.Pause);
    }

    /** Cancels, waits for the goroutines, and closes the client. */
    method Cancel(ghost quiet: bool)
      requires Valid() && call.Ready?
      modifies this
      ensures Valid() && old(history) <= history
      ensures status.Cancelled? && ThreadsGone(View()) && call.Ready?
    {
      Yield(Caller, quiet);
      ghost var before := View();
      cancelled, call := started, Cancelling;
      Took(before, TorrentEngine.Action.Cancel);
      WaitForThreads();
      MarkCancelled();
    }

    method MarkCancelled()
      requires Valid() && call.Cancelling? && ThreadsGone(View())
      modifies this
      ensures Valid() && old(history) <= history
      ensures status.Cancelled? && ThreadsGone(View()) && call.Ready?
    {
      ghost var before := View();
      status, call := Cancelled, Ready;
      Took(before, FinishCancel);
    }

    /** `wg.Wait` after a cancellation: the threads run on until both have returned. */
    method WaitForThreads()
      requires Valid() && call.Cancelling?
      modifies this
      ensures Valid() && old(history) <= history && call == old(call)
      ensures ThreadsGone(View())
    {
      Yield(Caller, false);
      if watcher.WaitInfo? || watcher.WaitComplete? {
        CancelIsSeen(View());
        StopWatching();
      }
      if killSwitch.Waiting? || killSwitch.Checking? {
        CancelIsSeen(View());
        StopGuarding();
      }
    }

    /** The kill switch finishes the check it may be in, and returns. */
    ghost method StopGuarding()
      requires Valid() && (killSwitch.Waiting? || killSwitch.Checking?) && cancelled
      modifies this
      ensures Valid() && old(history) <= history && killSwitch.SwitchGone?
      ensures call == old(call) && watcher == old(watcher)
    {
      ghost var before := View();
      if killSwitch.Checking? {
        killSwitch := Waiting;
        Took(before, NoLeak);
        before := View();
      }
      killSwitch := SwitchGone;
      Took(before, SwitchQuits);
    }

    /** A Cancel under way is seen by every thread there is. */
    lemma CancelIsSeen(s: State)
      requires Reaches(proxied, history, s) && s.call.Cancelling? && !ThreadsGone(s)
      ensures s.cancelled
    {
      RunKeeps(Init(proxied), history, s);
    }

    // -------------------------------------------------------------- background threads

    /** The download watcher: waits for metadata, then for the last piece. */
    method RunDownload(infoArrives: bool, finishes: bool)
      requires Valid() && watcher.WaitInfo? && (!infoArrives || !finishes ==> cancelled)
      modifies this
      ensures Valid() && old(history) <= history && watcher.WatcherGone?
      ensures infoArrives && finishes ==> !status.Active? && finished
    {
      Yield(Watch, false);
      if !infoArrives {
        StopWatching();
        return;
      }
      ghost var before := View();
      watcher := WaitComplete;
      Took(before, GotInfo);
      Yield(Watch, false);
      if !finishes {
        StopWatching();
        return;
      }
      Finish();
    }

    ghost method StopWatching()
      requires Valid() && (watcher.WaitInfo? || watcher.WaitComplete?) && cancelled
      modifies this
      ensures Valid() && old(history) <= history && watcher.WatcherGone?
      ensures call == old(call) && killSwitch == old(killSwitch) && cancelled
    {
      ghost var before := View();
      watcher := WatcherGone;
      Took(before, WatcherQuits);
    }

    /** All pieces are there: an active task is complete, any other keeps its status. */
    method Finish()
      requires Valid() && watcher.WaitComplete?
      modifies this
      ensures Valid() && old(history) <= history && watcher.WatcherGone?
      ensures status == (if old(status).Active? then Complete else old(status)) && finished
    {
      ghost var before := View();
      if status.Active? {
        status := Complete;
      }
      finished := true;
      watcher := WatcherGone;
      Took(before, AllPieces);
    }

    /** The kill switch: checks for leaks until it finds one or the task is cancelled. */
    method RunKillSwitch(turns: seq<Turn>) returns (leaked: bool, running: bool)
      requires Valid() && killSwitch.Waiting?
      modifies this
      ensures Valid() && old(history) <= history
      ensures leaked ==> status.Error? && !allowed && tripped && killSwitch.SwitchGone? && !running
      ensures !leaked && !running ==> cancelled && killSwitch.SwitchGone?
      ensures running ==> killSwitch.Waiting? && forall turn :: turn in turns ==> !turn.leaked
      ensures leaked ==> exists k :: FirstLeak(turns, k)
      ensures (forall turn :: turn in turns ==> !turn.cancelWins) ==> !leaked ==> running
    {
      leaked, running := false, true;
      var i := 0;
      while i < |turns| && running
        invariant 0 <= i <= |turns| && Valid() && old(history) <= history
        invariant leaked ==> FirstLeak(turns, i - 1)
        invariant (forall turn :: turn in turns ==> !turn.cancelWins) ==> !leaked ==> running
        invariant running ==> !leaked && killSwitch.Waiting? && forall j :: 0 <= j < i ==> !turns[j].leaked
        invariant leaked ==> status.Error? && !allowed && tripped && killSwitch.SwitchGone? && !running
        invariant !leaked && !running ==> cancelled && killSwitch.SwitchGone?
        decreases |turns| - i
      {
        leaked, running := Guarded(turns[i]);
        i := i + 1;
      }
    }

    /** One turn of that loop. */
    method Guarded(turn: Turn) returns (leaked: bool, running: bool)
      requires Valid() && killSwitch.Waiting?
      modifies this
      ensures Valid() && old(history) <= history
      ensures leaked ==> status.Error? && !allowed && tripped && killSwitch.SwitchGone? && !running
      ensures !leaked && !running ==> cancelled && killSwitch.SwitchGone?
      ensures running ==> !leaked && killSwitch.Waiting? && !turn.leaked
      ensures leaked ==> turn.leaked
      ensures !turn.cancelWins ==> leaked == turn.leaked && running == !leaked
    {
      Yield(Guard, false);
      ghost var before := View();
      if cancelled && turn.cancelWins {
        killSwitch := SwitchGone;
        Took(before, SwitchQuits);
        return false, false;
      }
      killSwitch := Checking;
      Took(before, Ticked);
      Yield(Guard, false);
      leaked := CheckForLeak(turn.leaked);
      running := !leaked;
    }

    /** One leak check: a leak stops the torrent and marks the task as errored. */
    method CheckForLeak(leak: bool) returns (leaked: bool)
      requires Valid() && killSwitch.Checking?
      modifies this
      ensures Valid() && old(history) <= history && leaked == leak
      ensures leaked ==> status.Error? && !allowed && tripped && killSwitch.SwitchGone?
      ensures !leaked ==> killSwitch.Waiting? && status == old(status) && allowed == old(allowed)
    {
      Safe();
      ghost var before := View();
      leaked := leak;
      if leaked {
        if started {
          allowed := false;
        }
        status := Error;
        killSwitch, tripped := SwitchGone, true;
        Took(before, Leak);
      } else {
        killSwitch := Waiting;
        Took(before, NoLeak);
      }
    }
  }
}
