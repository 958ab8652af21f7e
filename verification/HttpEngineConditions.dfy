/** Exactly when the download machine keeps its promises: what is needed of servers, of file deletion, of the callers
    and of the prior file, each with the run that goes wrong otherwise. */
module HttpEngineConditions {
  import opened HttpEngine
  import opened HttpEngineCompletion
  import opened HttpEngineLifecycle
  import opened HttpEngineSafety
  import opened HttpEngineTheorems
  import Runs
  import opened Segments
  import opened Wrappers

  // ---------------------------------------------------------------- a longer file in the way

  /** In every run, a Complete task has exactly the payload on disk. */
  ghost predicate AlwaysExact(c: Config) {
    forall acts, s :: Reaches(c, acts, s) && s.status.Complete? ==> s.file == c.payload
  }

  /** That is so exactly when nothing longer than the payload lies at the destination before the first run. */
  lemma ExactUnlessStale(c: Config)
    requires Serialised(c) && !c.shortEof && !c.orphans
    ensures AlwaysExact(c) <==> |c.stale| <= |c.payload|
  {
    if |c.stale| <= |c.payload| {
      forall acts, s | Reaches(c, acts, s) && s.status.Complete? ensures s.file == c.payload {
        CompleteIsExact(c, acts, s);
      }
    } else {
      var acts, t := SomeRunDelivers(c);
      CompleteIsExact(c, acts, t);
    }
  }

  // ---------------------------------------------------------------- deleting the file and not the sidecar

  /** In every run, what any snapshot says has arrived is on disk. */
  ghost predicate AlwaysBacked(c: Config) {
    forall acts, s, snap :: Reaches(c, acts, s) && snap in s.saved ==> Backed(c, s.file, snap)
  }

  /** All ranges have arrived and are on record; then the program stops, and a Remove deletes the file alone. */
  lemma Orphaned(c: Config) returns (acts: seq<Action>, t: State, snap: Snapshot)
    requires Serialised(c) && c.orphans && c.payload != []
    ensures Reaches(c, acts, t) && t.file == [] && snap in t.saved
    ensures snap.ranged && snap.segments != [] && NothingNeeded(snap.segments)
    ensures forall i :: 0 <= i < |snap.segments| ==>
      && 0 <= snap.segments[i].start <= snap.segments[i].end < |c.payload|
      && snap.segments[i].current == snap.segments[i].end + 1
  {
    var s := Init(c);
    acts, t := StartsFirst(c, s);
    acts, t := PlansRanged(c, s, acts, t);
    var plan := t;
    FreshIsFetchable(c, t);
    acts, t := Fetches(c, s, acts, t);
    snap := SnapshotOf(t);
    SplitEndsAscend(plan.segments, |c.payload|);
    acts, t := Runs.Take(Stepper(c), s, acts, t, Restart(Some(snap)));
    acts, t := DeletesFileOnly(c, s, acts, t);
  }

  lemma SplitEndsAscend(segs: seq<Segment>, total: int)
    requires Contiguous(segs, total)
    ensures forall i :: 0 <= i < |segs| ==> segs[i].end < total
  {
    forall i | 0 <= i < |segs| ensures segs[i].end < total {
      if i < |segs| - 1 {
        SegmentsAscend(segs, total, i, |segs| - 1);
      }
    }
  }

  /** A Remove in which only the deletion of the sidecar fails. */
  lemma DeletesFileOnly(c: Config, s: State, acts: seq<Action>, mid: State) returns (longer: seq<Action>, t: State)
    requires Run(c, s, acts) == Some(mid) && c.orphans && mid.runner.NoRunner? && mid.ctl == [Ready]
    ensures Run(c, s, longer) == Some(t) && t.file == [] && t.saved == mid.saved
  {
    longer, t := Runs.Take(Stepper(c), s, acts, mid, OfCaller(0, Remove));
    longer, t := Runs.Take(Stepper(c), s, longer, t, OfCaller(0, Return));
    longer, t := Runs.Take(Stepper(c), s, longer, t, OfCaller(0, DropSidecar(false)));
    longer, t := Runs.Take(Stepper(c), s, longer, t, OfCaller(0, DropFile(true)));
  }

  /** Snapshots can be relied on exactly when no Remove deletes the file while the sidecar survives. */
  lemma BackedUnlessOrphaned(c: Config)
    requires Serialised(c)
    ensures AlwaysBacked(c) <==> !c.orphans || c.payload == []
  {
    if c.orphans && c.payload != [] {
      var acts, t, snap := Orphaned(c);
      assert !InPlace(c, t.file, snap.segments[0].start, snap.segments[0].current);
    } else {
      forall acts, s, snap | Reaches(c, acts, s) && snap in s.saved ensures Backed(c, s.file, snap) {
        ReachableIsSafe(c, acts, s);
        SoundIsBacked(c, s.file, snap);
      }
    }
  }

  lemma SoundIsBacked(c: Config, file: seq<byte>, snap: Snapshot)
    requires Sound(c, file, snap) && (!c.orphans || c.payload == [])
    ensures Backed(c, file, snap)
  {
    forall i | 0 <= i < |snap.segments| ensures InPlace(c, file, snap.segments[i].start, snap.segments[i].current) {
      assert Matches(c, file, snap.segments[i].start, snap.segments[i].current);
    }
  }

  // ---------------------------------------------------------------- delivery

  /** In every run, a Complete task has the payload on disk. */
  ghost predicate AlwaysDelivers(c: Config) {
    forall acts, s :: Reaches(c, acts, s) && s.status.Complete? ==> c.payload <= s.file
  }

  /** Removing the task and starting over leaves a fresh Task on an empty destination. */
  lemma RemoveStartsOver(c: Config) returns (acts: seq<Action>, t: State)
    requires c.callers >= 1
    ensures Reaches(c, acts, t) && t == New(c, t, None) && t.file == []
  {
    var s := Init(c);
    acts, t := Runs.Take(Stepper(c), s, [], s, OfCaller(0, Remove));
    acts, t := Runs.Take(Stepper(c), s, acts, t, OfCaller(0, Return));
    acts, t := Runs.Take(Stepper(c), s, acts, t, OfCaller(0, DropSidecar(true)));
    acts, t := Runs.Take(Stepper(c), s, acts, t, OfCaller(0, DropFile(true)));
    acts, t := Runs.Take(Stepper(c), s, acts, t, Restart(None));
  }

  /** An empty body that ends cleanly makes the task Complete with the file untouched. */
  lemma EmptyBodyCompletes(c: Config, s: State) returns (acts: seq<Action>, t: State)
    requires s == New(c, s, None) && c.callers >= 1 && c.mirrors > 0 && c.shortEof
    ensures Run(c, s, acts) == Some(t) && t.status.Complete? && t.file == s.file
  {
    acts, t := StartsFirst(c, s);
    acts, t := PlansUnranged(c, s, acts, t);
    FreshIsFetchable(c, t);
    var plan := t;
    acts, t := Runs.Take(Stepper(c), s, acts, t, OfRunner(Open(true)));
    acts, t := LaunchesAll(c, s, plan, 0, 0, acts, t);
    acts, t := GetsNothing(c, s, acts, t);
  }

  lemma GetsNothing(c: Config, s: State, acts: seq<Action>, mid: State) returns (longer: seq<Action>, t: State)
    requires Run(c, s, acts) == Some(mid) && mid.segments == [Segment(0, 0, -1)] && mid.workers == [Asking(0)]
    requires c.shortEof && !mid.ranged && mid.runner.Waiting? && mid.failure.None?
    ensures Run(c, s, longer) == Some(t) && t.status.Complete? && t.file == mid.file
  {
    longer, t := Runs.Take(Stepper(c), s, acts, mid, OfWorker(0, Ask));
    longer, t := Runs.Take(Stepper(c), s, longer, t, OfWorker(0, Accept));
    longer, t := Runs.Take(Stepper(c), s, longer, t, OfWorker(0, Read(0, Eof)));
    longer, t := Runs.Take(Stepper(c), s, longer, t, OfWorker(0, Check));
    longer, t := Concludes(c, s, longer, t);
  }

  /** A task restarted from the orphaned sidecar has nothing left to fetch. */
  lemma OrphanCompletes(c: Config) returns (acts: seq<Action>, t: State)
    requires Serialised(c) && c.orphans && c.payload != []
    ensures Reaches(c, acts, t) && t.status.Complete? && t.file == []
  {
    var s, snap := Init(c), Snapshot(0, false, []);
    acts, t, snap := Orphaned(c);
    acts, t := Runs.Take(Stepper(c), s, acts, t, Restart(Some(snap)));
    acts, t := Runs.Take(Stepper(c), s, acts, t, OfCaller(0, Resume));
    acts, t := Runs.Take(Stepper(c), s, acts, t, OfCaller(0, Spawn));
    acts, t := Runs.Take(Stepper(c), s, acts, t, OfRunner(Mkdir(true)));
    acts, t := Completes(c, s, acts, t);
  }

  /** A Resume on one thread begins after a Remove on another has cancelled, and starts its runner only after the wait
      of the Remove: its run completes before the Remove gets to delete the file. */
  lemma RemoveOvertakesResume(c: Config) returns (acts: seq<Action>, t: State)
    requires c.mirrors > 0 && c.callers >= 2
    ensures Reaches(c, acts, t) && t.status.Complete? && t.file == []
  {
    var s := Init(c);
    acts, t := StartsInsideRemove(c);
    acts, t := PlansUnranged(c, s, acts, t);
    FreshIsFetchable(c, t);
    acts, t := Completes(c, s, acts, t);
    acts, t := Runs.Take(Stepper(c), s, acts, t, OfCaller(1, DropSidecar(true)));
    acts, t := Runs.Take(Stepper(c), s, acts, t, OfCaller(1, DropFile(true)));
  }

  lemma StartsInsideRemove(c: Config) returns (acts: seq<Action>, t: State)
    requires c.callers >= 2
    ensures Reaches(c, acts, t) && t.runner.Starting? && t.segments == [] && !t.cancelled
    ensures |t.ctl| >= 2 && t.ctl[1] == Deleting
  {
    var s := Init(c);
    acts, t := Runs.Take(Stepper(c), s, [], s, OfCaller(1, Remove));
    acts, t := Runs.Take(Stepper(c), s, acts, t, OfCaller(0, Resume));
    acts, t := Runs.Take(Stepper(c), s, acts, t, OfCaller(1, Return));
    acts, t := Runs.Take(Stepper(c), s, acts, t, OfCaller(0, Spawn));
  }

  /** Delivery holds in every run exactly when control calls do not overlap, servers send whole bodies, and no Remove
      deletes the file while the sidecar survives; each of the three is needed for every payload but the empty one. */
  lemma DeliversExactlyWhen(c: Config)
    requires c.mirrors > 0 && c.callers >= 1
    ensures AlwaysDelivers(c) <==> c.payload == [] || (c.callers == 1 && !c.shortEof && !c.orphans)
  {
    if c.callers == 1 && !c.shortEof && !c.orphans {
      forall acts, s | Reaches(c, acts, s) && s.status.Complete? ensures c.payload <= s.file {
        CompleteDelivers(c, acts, s);
      }
    } else if c.payload != [] {
      var acts, t := FailsToDeliver(c);
      assert !(c.payload <= t.file);
    }
  }

  lemma FailsToDeliver(c: Config) returns (acts: seq<Action>, t: State)
    requires c.mirrors > 0 && c.callers >= 1 && (c.callers > 1 || c.shortEof || c.orphans) && c.payload != []
    ensures Reaches(c, acts, t) && t.status.Complete? && t.file == []
  {
    if c.callers > 1 {
      acts, t := RemoveOvertakesResume(c);
    } else if c.orphans {
      acts, t := OrphanCompletes(c);
    } else {
      var first, restarted := RemoveStartsOver(c);
      var second, u := EmptyBodyCompletes(c, restarted);
      Runs.Concat(Stepper(c), Init(c), first, restarted, second);
      acts, t := first + second, u;
    }
  }

  // ---------------------------------------------------------------- which stopped downloads can still complete

  /** The plan asks for a range that starts past the end of the file: the size is unknown, and every byte is there. */
  predicate Spent(c: Config, s: State) {
    s.ranged && s.total <= 0 && |s.segments| == 1 && s.segments[0].end == -1 && s.segments[0].current == |c.payload|
  }

  ghost predicate CanComplete(c: Config, s: State) {
    exists more, t :: NoRestart(more) && Run(c, s, more) == Some(t) && t.status.Complete?
  }

  /** No call is in progress and no goroutine is left. */
  predicate AtRest(s: State) {
    s.ctl == [Ready] && s.runner.NoRunner?
  }

  lemma RestIsFetchable(c: Config, s: State)
    requires Inv(c, s) && s.segments != [] && !Spent(c, s)
    ensures AllFetchable(c, s)
  {
    forall i | 0 <= i < |s.segments| ensures Fetchable(c, s.ranged, s.segments[i]) {
      if Bounded(s.total, s.ranged) {
        SplitEndsAscend(s.segments, s.total);
      }
    }
  }

  /** A task at rest that is neither finished nor spent completes when it is resumed and everything answers. */
  lemma CompletesWhenResumed(c: Config, s: State) returns (acts: seq<Action>, t: State)
    requires Inv(c, s) && AtRest(s) && !s.status.Complete? && !s.status.Cancelled? && !Spent(c, s)
    ensures Run(c, s, acts) == Some(t) && NoRestart(acts) && t.status.Complete?
  {
    acts, t := Runs.Take(Stepper(c), s, [], s, OfCaller(0, Resume));
    acts, t := Runs.Take(Stepper(c), s, acts, t, OfCaller(0, Spawn));
    if s.segments == [] {
      acts, t := PlansUnranged(c, s, acts, t);
      FreshIsFetchable(c, t);
    } else {
      RestIsFetchable(c, s);
      acts, t := Runs.Take(Stepper(c), s, acts, t, OfRunner(Mkdir(true)));
    }
    acts, t := Completes(c, s, acts, t);
  }

  /** What stays so once a plan is spent: no response is ever accepted, so no goroutine returns without an error. */
  ghost predicate Hopeless(c: Config, s: State) {
    && Spent(c, s) && !s.status.Complete? && |s.workers| == 1
    && (s.workers[0].Idle? || s.workers[0].Asking? || s.workers[0].Asked? || s.workers[0].Failed? || s.workers[0].Backoff?
        || (s.workers[0].Done? && s.failure.Some?))
    && (s.workers[0].Asked? ==> s.workers[0].offset == |c.payload|)
    && (match s.runner
        case NoRunner => true
        case Starting => true
        case Mirror(_) => true
        case Launching(_, next) => next <= 1 && (next == 1 ==> !s.workers[0].Idle?)
        case Waiting(_) => !s.workers[0].Idle?
        case _ => false)
  }

  lemma HopelessWorker(c: Config, s: State, i: nat, e: WorkerEvent, t: State)
    requires Hopeless(c, s) && WorkerStep(c, s, i, e) == Some(t)
    ensures Hopeless(c, t)
  {
    assert i == 0;
  }

  lemma HopelessRunner(c: Config, s: State, e: RunnerEvent, t: State)
    requires Hopeless(c, s) && RunnerStep(c, s, e) == Some(t)
    ensures Hopeless(c, t)
  {
    if s.runner.Waiting? {
      assert e.Join? && s.workers[0].Done?;
    }
  }

  lemma HopelessCaller(c: Config, s: State, k: nat, e: CallEvent, t: State)
    requires Hopeless(c, s) && CallerStep(c, s, k, e) == Some(t)
    ensures Hopeless(c, t)
  {
  }

  lemma {:induction false} HopelessStays(c: Config, s: State, acts: seq<Action>, t: State)
    requires Hopeless(c, s) && NoRestart(acts) && Run(c, s, acts) == Some(t)
    ensures Hopeless(c, t)
    decreases |acts|
  {
    if acts != [] {
      var mid := Step(c, s, acts[0]).value;
      match acts[0] {
        case OfWorker(i, e) => HopelessWorker(c, s, i, e, mid);
        case OfRunner(e) => HopelessRunner(c, s, e, mid);
        case OfCaller(k, e) => HopelessCaller(c, s, k, e, mid);
      }
      assert forall i :: 0 <= i < |acts| - 1 ==> acts[1..][i] == acts[i + 1];
      HopelessStays(c, mid, acts[1..], t);
    }
  }

  /** A stopped task can still complete exactly when it is complete already, or it is not cancelled and its plan is not
      spent. */
  lemma CompletesUnlessSpent(c: Config, acts: seq<Action>, s: State)
    requires Serialised(c) && Reaches(c, acts, s) && AtRest(s)
    ensures CanComplete(c, s) <==> s.status.Complete? || (!s.status.Cancelled? && !Spent(c, s))
  {
    ReachableIsSafe(c, acts, s);
    if s.status.Complete? {
      assert NoRestart([]) && Run(c, s, []) == Some(s);
    } else if s.status.Cancelled? {
      forall more, t | NoRestart(more) && Run(c, s, more) == Some(t) ensures !t.status.Complete? {
        CancelledForever(c, s, more, t);
      }
    } else if Spent(c, s) {
      forall more, t | NoRestart(more) && Run(c, s, more) == Some(t) ensures !t.status.Complete? {
        HopelessStays(c, s, more, t);
      }
    } else {
      var more, t := CompletesWhenResumed(c, s);
    }
  }

  /** The run behind it: a download of unknown size is paused after its last byte and before the end of the body. */
  lemma PausedBeforeTheEnd(c: Config) returns (acts: seq<Action>, t: State)
    requires Serialised(c) && c.payload != []
    ensures Reaches(c, acts, t) && t.status.Paused? && AtRest(t) && Spent(c, t) && c.payload <= t.file
  {
    var s := Init(c);
    acts, t := StartsFirst(c, s);
    acts, t := PlansUnknown(c, s, acts, t);
    acts, t := Runs.Take(Stepper(c), s, acts, t, OfRunner(Open(true)));
    acts, t := Runs.Take(Stepper(c), s, acts, t, OfRunner(Launch));
    assert t.workers == [Asking(0)];
    acts, t := Runs.Take(Stepper(c), s, acts, t, OfRunner(Launch));
    acts, t := GetsAllButTheEnd(c, s, acts, t);
    acts, t := PausesThere(c, s, acts, t);
  }

  lemma PlansUnknown(c: Config, s: State, acts: seq<Action>, mid: State) returns (longer: seq<Action>, t: State)
    requires Run(c, s, acts) == Some(mid) && mid.runner.Starting? && mid.segments == [] && c.payload != [] && c.mirrors > 0
    ensures Run(c, s, longer) == Some(t) && t.ranged && t.total == -1 && t.segments == [Segment(0, 0, -1)]
    ensures t.runner == Mirror(0) && t.ctl == mid.ctl && t.status == mid.status
  {
    var plan := [Segment(0, 0, -1)];
    assert FreshSegments(c, -1, true, plan);
    longer, t := Runs.Take(Stepper(c), s, acts, mid, OfRunner(Mkdir(true)));
    longer, t := Runs.Take(Stepper(c), s, longer, t, OfRunner(ProbeReply(-1, true, plan)));
    longer, t := Runs.Take(Stepper(c), s, longer, t, OfRunner(SaveFirst(true)));
  }

  lemma GetsAllButTheEnd(c: Config, s: State, acts: seq<Action>, mid: State) returns (longer: seq<Action>, t: State)
    requires Run(c, s, acts) == Some(mid) && c.payload != [] && mid.segments == [Segment(0, 0, -1)]
    requires mid.ranged && mid.workers == [Asking(0)]
    ensures Run(c, s, longer) == Some(t) && c.payload <= t.file
    ensures t == mid.(file := t.file, downloaded := t.downloaded, fetches := t.fetches, saved := t.saved,
                      segments := [Segment(0, |c.payload|, -1)], workers := [Settling(0, |c.payload|, More)])
  {
    longer, t := Runs.Take(Stepper(c), s, acts, mid, OfWorker(0, Ask));
    longer, t := Runs.Take(Stepper(c), s, longer, t, OfWorker(0, Accept));
    longer, t := Runs.Take(Stepper(c), s, longer, t, OfWorker(0, Read(|c.payload|, More)));
    assert t == mid.(file := t.file, fetches := t.fetches, workers := [Wrote(0, 0, |c.payload|, More)]);
    assert c.payload <= t.file;
    longer, t := RecordsAll(c, s, longer, t);
  }

  lemma RecordsAll(c: Config, s: State, acts: seq<Action>, mid: State) returns (longer: seq<Action>, t: State)
    requires Run(c, s, acts) == Some(mid) && mid.segments == [Segment(0, 0, -1)]
    requires mid.workers == [Wrote(0, 0, |c.payload|, More)]
    ensures Run(c, s, longer) == Some(t)
    ensures t == mid.(downloaded := t.downloaded, saved := t.saved,
                      segments := [Segment(0, |c.payload|, -1)], workers := [Settling(0, |c.payload|, More)])
  {
    longer, t := Runs.Take(Stepper(c), s, acts, mid, OfWorker(0, Count));
    longer, t := Runs.Take(Stepper(c), s, longer, t, OfWorker(0, Publish));
    longer, t := Runs.Take(Stepper(c), s, longer, t, OfWorker(0, Save(true)));
  }

  lemma PausesThere(c: Config, s: State, acts: seq<Action>, mid: State) returns (longer: seq<Action>, t: State)
    requires Run(c, s, acts) == Some(mid) && mid.workers == [Settling(0, |c.payload|, More)] && |mid.segments| == 1
    requires mid.runner.Waiting? && mid.failure.None? && mid.ctl == [Ready] && mid.status.Active?
    ensures Run(c, s, longer) == Some(t) && t.status.Paused? && AtRest(t)
    ensures t.segments == mid.segments && t.file == mid.file && t.ranged == mid.ranged && t.total == mid.total
  {
    longer, t := Runs.Take(Stepper(c), s, acts, mid, OfCaller(0, Pause));
    longer, t := Runs.Take(Stepper(c), s, longer, t, OfWorker(0, Check));
    longer, t := Runs.Take(Stepper(c), s, longer, t, OfWorker(0, Retry));
    longer, t := Runs.Take(Stepper(c), s, longer, t, OfRunner(Join));
    longer, t := Runs.Take(Stepper(c), s, longer, t, OfCaller(0, Return));
    assert t.ctl == [Ready];
  }
}
