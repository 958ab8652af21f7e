/** The invariant of the download machine, and its preservation by every step. */
module HttpEngineSafety {
  import opened HttpEngine
  import opened Segments
  import opened Wrappers

  /** The bytes `[lo, hi)` of the file are those of the payload. */
  ghost predicate InPlace(c: Config, file: seq<byte>, lo: int, hi: int) {
    lo < hi ==>
      && 0 <= lo && hi <= |file| && hi <= |c.payload|
      && forall k :: lo <= k < hi ==> file[k] == c.payload[k]
  }

  /** That is what the machine maintains, as long as no file is deleted behind its sidecar. */
  ghost predicate Matches(c: Config, file: seq<byte>, lo: int, hi: int) {
    c.orphans || InPlace(c, file, lo, hi)
  }

  /** The shape of a segment list, in memory or on disk. */
  ghost predicate Layout(c: Config, total: int, ranged: bool, segs: seq<Segment>) {
    if Bounded(total, ranged) then
      && total == |c.payload|
      && Contiguous(segs, total)
      && forall i :: 0 <= i < |segs| ==> segs[i].start <= segs[i].current <= segs[i].end + 1
    else
      && |segs| == 1
      && segs[0].start == 0 && segs[0].end == -1
      && 0 <= segs[0].current <= |c.payload|
  }

  ghost predicate Landed(c: Config, file: seq<byte>, segs: seq<Segment>) {
    forall i :: 0 <= i < |segs| ==> Matches(c, file, segs[i].start, segs[i].current)
  }

  /** A snapshot from which a restart is safe: what it claims to be on disk is on disk. */
  ghost predicate Sound(c: Config, file: seq<byte>, snap: Snapshot) {
    Layout(c, snap.total, snap.ranged, snap.segments) && Landed(c, file, snap.segments)
  }

  ghost predicate EndOk(c: Config, cancelled: bool, after: ReadEnd, offset: int, limit: int) {
    && (after == Eof ==> c.shortEof || offset == limit)
    && (after == Aborted ==> cancelled)
  }

  ghost predicate Delivered(c: Config, seg: Segment) {
    c.shortEof || seg.current == Limit(c, seg)
  }

  ghost predicate WorkerOk(c: Config, file: seq<byte>, failure: Option<Failure>, cancelled: bool, seg: Segment, w: Worker) {
    match w
    case Asked(_, o) => o == seg.current
    case Reading(_, o) => o == seg.current
    case Wrote(_, o, n, after) =>
      && o == seg.current && 0 < n && o + n <= Limit(c, seg)
      && Matches(c, file, o, o + n) && EndOk(c, cancelled, after, o + n, Limit(c, seg))
    case Counted(_, o, n, after) =>
      && o == seg.current && 0 < n && o + n <= Limit(c, seg)
      && Matches(c, file, o, o + n) && EndOk(c, cancelled, after, o + n, Limit(c, seg))
    case Published(_, o, snap, after) =>
      o == seg.current && Sound(c, file, snap) && EndOk(c, cancelled, after, o, Limit(c, seg))
    case Settling(_, o, after) => o == seg.current && EndOk(c, cancelled, after, o, Limit(c, seg))
    case Failed(_, why) => why == Canceled ==> cancelled
    case Done => failure.None? ==> Delivered(c, seg)
    case _ => true
  }

  ghost predicate WorkersOk(c: Config, s: State) {
    && |s.workers| == |s.segments|
    && forall i :: 0 <= i < |s.workers| ==>
        WorkerOk(c, s.file, s.failure, s.cancelled, s.segments[i], s.workers[i])
  }

  ghost predicate NoWorker(s: State) {
    forall i :: 0 <= i < |s.workers| ==> s.workers[i].Idle?
  }

  ghost predicate AllDelivered(c: Config, s: State) {
    |s.segments| > 0 && forall i :: 0 <= i < |s.segments| ==> Delivered(c, s.segments[i])
  }

  /** Workers below `next` were launched or had nothing left to do; the others have not been looked at. */
  ghost predicate LaunchedUpTo(s: State, next: nat) {
    && next <= |s.workers| == |s.segments|
    && (forall i :: next <= i < |s.workers| ==> s.workers[i].Idle?)
    && (forall i :: 0 <= i < next && s.workers[i].Idle? ==> !StillNeeded(s.segments[i]))
  }

  ghost predicate RunnerOk(c: Config, s: State) {
    match s.runner
    case NoRunner => NoWorker(s)
    case Starting => NoWorker(s)
    case Probing(url, _) => s.segments == [] && url < c.mirrors
    case ProbeBackoff(url, _) => s.segments == [] && url < c.mirrors
    case Allocating => NoWorker(s) && s.segments != [] && Bounded(s.total, s.ranged)
    case Saving(snap) => NoWorker(s) && s.segments != [] && snap == SnapshotOf(s)
    case Mirror(url) => NoWorker(s) && s.segments != [] && url < c.mirrors
    case Launching(url, next) => s.segments != [] && url < c.mirrors && LaunchedUpTo(s, next)
    case Waiting(url) => s.segments != [] && url < c.mirrors && LaunchedUpTo(s, |s.workers|)
    case Finalizing => NoWorker(s) && AllDelivered(c, s)
  }

  /** What serialised control calls keep about the status, the runner and the context. */
  ghost predicate LifecycleOk(c: Config, s: State) {
    && |s.ctl| == c.callers == 1
    && (!s.runner.NoRunner? ==> s.status.Active? && !s.ctl[0].Resuming?)
    && (s.status.Active? && s.runner.NoRunner? ==> !s.ctl[0].Ready?)
    && (s.ctl[0].Resuming? ==> s.status.Active? && !s.cancelled)
    && (!s.runner.NoRunner? && s.cancelled ==> !s.ctl[0].Ready?)
    && (s.failure == Some(Canceled) && (s.runner.Launching? || s.runner.Waiting?) ==> s.cancelled)
    && (s.status.Complete? ==> AllDelivered(c, s))
    && (s.ctl[0].Deleting? || s.ctl[0].Unlinking? ==> s.status.Cancelled? && s.runner.NoRunner?)
    && (s.ctl[0] == Unlinking(true) ==> s.saved == {})
    && (s.ctl[0].Pausing? || s.ctl[0].Cancelling? || s.ctl[0].Removing? ==> s.cancelled)
  }

  /** Past the payload the destination still holds its stale tail, until it is cut. */
  ghost predicate TailOk(c: Config, s: State) {
    if s.cut then |s.file| <= |c.payload|
    else
      && |c.stale| <= |s.file| <= Max(|c.stale|, |c.payload|)
      && forall k :: |c.payload| <= k < |c.stale| ==> s.file[k] == c.stale[k]
  }

  ghost predicate Inv(c: Config, s: State) {
    && c.mirrors > 0
    && (s.segments == [] || Layout(c, s.total, s.ranged, s.segments))
    && (s.status.Cancelled? || Landed(c, s.file, s.segments))
    && (forall snap :: snap in s.saved ==> Sound(c, s.file, snap))
    && WorkersOk(c, s)
    && RunnerOk(c, s)
    && LifecycleOk(c, s)
    && TailOk(c, s)
  }

  // ---------------------------------------------------------------- writing never unwrites

  /** Every payload byte already in place in `f` is in place in `g`. */
  ghost predicate Keeps(c: Config, f: seq<byte>, g: seq<byte>) {
    && Min(|f|, |c.payload|) <= |g|
    && forall k :: 0 <= k < |f| && k < |c.payload| && f[k] == c.payload[k] ==> g[k] == c.payload[k]
  }

  lemma HonestWrite(c: Config, s: State, o: nat, n: nat)
    requires o + n <= |c.payload| && TailOk(c, s)
    ensures Keeps(c, s.file, WriteAt(s.file, c.payload[o..o + n], o))
    ensures Matches(c, WriteAt(s.file, c.payload[o..o + n], o), o, o + n)
    ensures TailOk(c, s.(file := WriteAt(s.file, c.payload[o..o + n], o)))
  {
  }

  lemma HonestTruncate(c: Config, s: State)
    requires s.total == |c.payload|
    ensures Keeps(c, s.file, Truncate(s.file, s.total))
  {
  }

  lemma MatchesKept(c: Config, f: seq<byte>, g: seq<byte>, lo: int, hi: int)
    requires Keeps(c, f, g) && Matches(c, f, lo, hi)
    ensures Matches(c, g, lo, hi)
  {
  }

  lemma LandedKept(c: Config, f: seq<byte>, g: seq<byte>, segs: seq<Segment>)
    requires Keeps(c, f, g) && Landed(c, f, segs)
    ensures Landed(c, g, segs)
  {
    forall i | 0 <= i < |segs| ensures Matches(c, g, segs[i].start, segs[i].current) {
      MatchesKept(c, f, g, segs[i].start, segs[i].current);
    }
  }

  lemma WorkerKept(c: Config, f: seq<byte>, g: seq<byte>, failure: Option<Failure>, failure': Option<Failure>,
                   cancelled: bool, cancelled': bool, seg: Segment, w: Worker)
    requires Keeps(c, f, g) && (failure'.None? ==> failure.None?) && (cancelled ==> cancelled')
    requires WorkerOk(c, f, failure, cancelled, seg, w)
    ensures WorkerOk(c, g, failure', cancelled', seg, w)
  {
    if w.Published? {
      LandedKept(c, f, g, w.snap.segments);
    } else if w.Wrote? || w.Counted? {
      MatchesKept(c, f, g, w.offset, w.offset + w.n);
    }
  }

  /** Everything but worker `i` and its segment survives a step that leaves them alone and only adds good bytes. */
  lemma OthersKept(c: Config, s: State, t: State, i: nat)
    requires WorkersOk(c, s) && i < |s.workers|
    requires |t.workers| == |t.segments| == |s.workers|
    requires forall j :: 0 <= j < |s.workers| && j != i ==> t.workers[j] == s.workers[j] && t.segments[j] == s.segments[j]
    requires Keeps(c, s.file, t.file) && (t.failure.None? ==> s.failure.None?) && (s.cancelled ==> t.cancelled)
    requires WorkerOk(c, t.file, t.failure, t.cancelled, t.segments[i], t.workers[i])
    ensures WorkersOk(c, t)
  {
    forall j | 0 <= j < |t.workers|
      ensures WorkerOk(c, t.file, t.failure, t.cancelled, t.segments[j], t.workers[j])
    {
      if j != i {
        WorkerKept(c, s.file, t.file, s.failure, t.failure, s.cancelled, t.cancelled, s.segments[j], s.workers[j]);
      }
    }
  }

  lemma SavedKept(c: Config, s: State, t: State)
    requires Keeps(c, s.file, t.file) && forall snap :: snap in s.saved ==> Sound(c, s.file, snap)
    ensures forall snap :: snap in s.saved ==> Sound(c, t.file, snap)
  {
    forall snap | snap in s.saved ensures Sound(c, t.file, snap) {
      LandedKept(c, s.file, t.file, snap.segments);
    }
  }

  // ---------------------------------------------------------------- worker steps

  /** What a worker step may touch, and what it establishes for its own segment. */
  ghost predicate WorkerMove(c: Config, s: State, i: nat, t: State) {
    && i < |s.workers| == |s.segments| == |t.workers| == |t.segments|
    && (forall j :: 0 <= j < |s.workers| && j != i ==> t.workers[j] == s.workers[j] && t.segments[j] == s.segments[j])
    && !s.workers[i].Idle? && !t.workers[i].Idle?
    && t == s.(workers := t.workers, segments := t.segments, file := t.file, downloaded := t.downloaded,
               failure := t.failure, saved := t.saved, fetches := t.fetches)
    && Keeps(c, s.file, t.file) && TailOk(c, t)
    && (s.failure.Some? ==> t.failure == s.failure)
    && (t.failure == Some(Canceled) ==> s.failure == t.failure || s.cancelled)
    && (t.segments == [] || Layout(c, t.total, t.ranged, t.segments))
    && Matches(c, t.file, t.segments[i].start, t.segments[i].current)
    && WorkerOk(c, t.file, t.failure, t.cancelled, t.segments[i], t.workers[i])
    && (t.saved == s.saved
        || (s.workers[i].Published? && t.saved == s.saved + {s.workers[i].snap}))
  }

  /** What one worker needs to know of the invariant to take its steps safely. */
  ghost predicate LocalOk(c: Config, s: State, i: nat) {
    && i < |s.workers| == |s.segments|
    && Layout(c, s.total, s.ranged, s.segments)
    && Matches(c, s.file, s.segments[i].start, s.segments[i].current)
    && WorkerOk(c, s.file, s.failure, s.cancelled, s.segments[i], s.workers[i])
    && TailOk(c, s)
  }

  lemma InvIsLocal(c: Config, s: State, i: nat)
    requires Inv(c, s) && i < |s.workers| && !s.workers[i].Idle?
    ensures LocalOk(c, s, i)
  {
    assert Matches(c, s.file, s.segments[i].start, s.segments[i].current);
  }

  lemma WorkerMoveKeeps(c: Config, s: State, i: nat, t: State)
    requires Inv(c, s) && WorkerMove(c, s, i, t)
    ensures Inv(c, t)
  {
    OthersKept(c, s, t, i);
    SavedKept(c, s, t);
    if s.workers[i].Published? {
      LandedKept(c, s.file, t.file, s.workers[i].snap.segments);
    }
    assert s.runner.Launching? || s.runner.Waiting?;
    forall j | 0 <= j < |t.segments| ensures Matches(c, t.file, t.segments[j].start, t.segments[j].current) {
      if j != i {
        MatchesKept(c, s.file, t.file, s.segments[j].start, s.segments[j].current);
      }
    }
  }

  lemma PublishMoves(c: Config, s: State, i: nat)
    requires LocalOk(c, s, i) && s.workers[i].Counted? && Landed(c, s.file, s.segments)
    ensures WorkerMove(c, s, i, PublishStep(s, i))
  {
    var w, t := s.workers[i], PublishStep(s, i);
    PublishedIsSound(c, s, i, w.offset + w.n);
    assert SnapshotOf(t) == Snapshot(s.total, s.ranged, s.segments[i := s.segments[i].(current := w.offset + w.n)]);
    assert WorkerOk(c, t.file, t.failure, t.cancelled, t.segments[i], t.workers[i]);
    TailDependsOnFile(c, s, t);
  }

  /** Moving the offset of a segment over bytes that are in place keeps a plan sound. */
  lemma PublishedIsSound(c: Config, s: State, i: nat, next: int)
    requires i < |s.segments| && Layout(c, s.total, s.ranged, s.segments) && Landed(c, s.file, s.segments)
    requires s.segments[i].current <= next <= Limit(c, s.segments[i])
    requires Matches(c, s.file, s.segments[i].current, next)
    ensures Matches(c, s.file, s.segments[i].start, next)
    ensures Sound(c, s.file, Snapshot(s.total, s.ranged, s.segments[i := s.segments[i].(current := next)]))
  {
    var segs := s.segments[i := s.segments[i].(current := next)];
    assert Matches(c, s.file, s.segments[i].start, s.segments[i].current);
    forall j | 0 <= j < |segs| ensures Matches(c, s.file, segs[j].start, segs[j].current) {
      assert Matches(c, s.file, s.segments[j].start, s.segments[j].current);
    }
  }

  lemma AskMoves(c: Config, s: State, i: nat)
    requires LocalOk(c, s, i) && s.workers[i].Asking?
    ensures WorkerMove(c, s, i, AskStep(s, i))
  {
  }

  lemma ReadMoves(c: Config, s: State, i: nat, n: nat, after: ReadEnd)
    requires LocalOk(c, s, i) && s.workers[i].Reading?
    requires MayRead(c, s.cancelled, s.segments[i], s.workers[i].offset, n, after)
    ensures WorkerMove(c, s, i, ReadStep(c, s, i, n, after))
  {
    if n > 0 {
      ReadSomeMoves(c, s, i, n, after);
    }
  }

  lemma ReadSomeMoves(c: Config, s: State, i: nat, n: nat, after: ReadEnd)
    requires LocalOk(c, s, i) && s.workers[i].Reading? && n > 0
    requires MayRead(c, s.cancelled, s.segments[i], s.workers[i].offset, n, after)
    ensures WorkerMove(c, s, i, ReadStep(c, s, i, n, after))
  {
    var o, t := s.workers[i].offset, ReadStep(c, s, i, n, after);
    HonestWrite(c, s, o, n);
    MatchesKept(c, s.file, t.file, s.segments[i].start, s.segments[i].current);
    assert t.file == WriteAt(s.file, c.payload[o..o + n], o);
    TailDependsOnFile(c, s.(file := t.file), t);
    assert WorkerOk(c, t.file, t.failure, t.cancelled, t.segments[i], t.workers[i]);
  }

  lemma TailDependsOnFile(c: Config, s: State, t: State)
    requires TailOk(c, s) && t.file == s.file && t.cut == s.cut
    ensures TailOk(c, t)
  {
  }

  lemma WriteFaultMoves(c: Config, s: State, i: nat, n: nat)
    requires LocalOk(c, s, i) && s.workers[i].Reading?
    requires MayRead(c, s.cancelled, s.segments[i], s.workers[i].offset, n, More)
    ensures WorkerMove(c, s, i, WriteFaultStep(c, s, i, n))
  {
    var t := WriteFaultStep(c, s, i, n);
    HonestWrite(c, s, s.workers[i].offset, n);
    MatchesKept(c, s.file, t.file, s.segments[i].start, s.segments[i].current);
    TailDependsOnFile(c, s.(file := t.file), t);
  }

  lemma BookkeepingMoves(c: Config, s: State, i: nat, ok: bool)
    requires LocalOk(c, s, i)
    ensures s.workers[i].Wrote? ==> WorkerMove(c, s, i, CountStep(s, i))
    ensures s.workers[i].Published? ==> WorkerMove(c, s, i, SaveStep(s, i, ok))
  {
  }

  /** A goroutine that only moves on, and may leave its error behind. */
  lemma PhaseMoves(c: Config, s: State, i: nat, w: Worker, failure: Option<Failure>)
    requires LocalOk(c, s, i) && !s.workers[i].Idle? && !w.Idle?
    requires WorkerOk(c, s.file, failure, s.cancelled, s.segments[i], w)
    requires s.failure.Some? ==> failure == s.failure
    requires failure == Some(Canceled) ==> s.failure == failure || s.cancelled
    ensures WorkerMove(c, s, i, SetWorker(s, i, w).(failure := failure))
  {
  }

  lemma CheckMoves(c: Config, s: State, i: nat)
    requires LocalOk(c, s, i) && s.workers[i].Settling?
    ensures WorkerMove(c, s, i, CheckStep(s, i))
  {
    var t := CheckStep(s, i);
    PhaseMoves(c, s, i, t.workers[i], s.failure);
    assert t == SetWorker(s, i, t.workers[i]).(failure := s.failure);
  }

  lemma RetryMoves(c: Config, s: State, i: nat)
    requires LocalOk(c, s, i) && s.workers[i].Failed?
    ensures WorkerMove(c, s, i, RetryStep(c, s, i))
  {
    var w := s.workers[i];
    if w.why == Canceled || w.attempt >= c.maxRetry {
      PhaseMoves(c, s, i, Done, FinishFailed(s, i, w.why).failure);
    } else {
      PhaseMoves(c, s, i, Backoff(w.attempt), s.failure);
      assert RetryStep(c, s, i) == SetWorker(s, i, Backoff(w.attempt)).(failure := s.failure);
    }
  }

  lemma OtherMoves(c: Config, s: State, i: nat, e: WorkerEvent, t: State)
    requires LocalOk(c, s, i) && WorkerStep(c, s, i, e) == Some(t)
    requires e.Accept? || e.Refuse? || e.Wake? || e.GiveUp?
    ensures WorkerMove(c, s, i, t)
  {
    PhaseMoves(c, s, i, t.workers[i], t.failure);
    assert t == SetWorker(s, i, t.workers[i]).(failure := t.failure);
  }

  lemma WorkerStepKeeps(c: Config, s: State, i: nat, e: WorkerEvent, t: State)
    requires Inv(c, s) && WorkerStep(c, s, i, e) == Some(t)
    ensures Inv(c, t)
  {
    InvIsLocal(c, s, i);
    assert WorkerMove(c, s, i, t) by {
      match e {
        case Ask => AskMoves(c, s, i);
        case Read(n, after) => ReadMoves(c, s, i, n, after);
        case WriteFault(n) => WriteFaultMoves(c, s, i, n);
        case Count => BookkeepingMoves(c, s, i, true);
        case Publish => PublishMoves(c, s, i);
        case Save(ok) => BookkeepingMoves(c, s, i, ok);
        case Check => CheckMoves(c, s, i);
        case Retry => RetryMoves(c, s, i);
        case _ => OtherMoves(c, s, i, e, t);
      }
    }
    WorkerMoveKeeps(c, s, i, t);
  }

  // ---------------------------------------------------------------- runner steps

  /** A step that moves only the runner, the status and the counters. */
  lemma RunnerMoveKeeps(c: Config, s: State, t: State)
    requires Inv(c, s) && RunnerOk(c, t) && LifecycleOk(c, t)
    requires t == s.(runner := t.runner, status := t.status, probes := t.probes, fetches := t.fetches)
    requires s.status.Cancelled? ==> t.status.Cancelled?
    ensures Inv(c, t)
  {
    assert WorkersOk(c, t);
  }

  lemma IdleWorkersOk(c: Config, s: State, t: State)
    requires |t.workers| == |t.segments| && NoWorker(t)
    ensures WorkersOk(c, t)
  {
  }

  lemma PlanKeeps(c: Config, s: State, total: int, ranged: bool, segs: seq<Segment>)
    requires Inv(c, s) && s.runner.Probing?
    requires ProbeAnswer(c, total, ranged) && FreshSegments(c, total, ranged, segs)
    ensures Inv(c, PlanStep(s, total, ranged, segs))
  {
    var t := PlanStep(s, total, ranged, segs);
    IdleWorkersOk(c, s, t);
  }

  lemma AllocateKeeps(c: Config, s: State, t: State)
    requires Inv(c, s) && RunnerStep(c, s, Allocate(true)) == Some(t)
    ensures Inv(c, t)
  {
    HonestTruncate(c, s);
    assert t.file == Truncate(s.file, s.total);
    LandedKept(c, s.file, t.file, s.segments);
    SavedKept(c, s, t);
    IdleWorkersOk(c, s, t);
  }

  lemma OpenKeeps(c: Config, s: State, t: State)
    requires Inv(c, s) && RunnerStep(c, s, Open(true)) == Some(t)
    ensures Inv(c, t)
  {
    IdleWorkersOk(c, s, t);
  }

  lemma LaunchKeeps(c: Config, s: State)
    requires Inv(c, s) && s.runner.Launching?
    ensures Inv(c, LaunchStep(s))
  {
    var next := s.runner.next;
    if next < |s.workers| && StillNeeded(s.segments[next]) {
      LaunchStartsKeeps(c, s);
    } else {
      RunnerMoveKeeps(c, s, LaunchStep(s));
    }
  }

  lemma LaunchStartsKeeps(c: Config, s: State)
    requires Inv(c, s) && s.runner.Launching? && s.runner.next < |s.workers|
    requires StillNeeded(s.segments[s.runner.next])
    ensures Inv(c, LaunchStep(s))
  {
    var t, next := LaunchStep(s), s.runner.next;
    assert s.workers[next].Idle?;
    OthersKept(c, s, t, next);
    assert LaunchedUpTo(t, next + 1);
  }

  /** When every goroutine of a mirror has returned without an error, every segment is delivered. */
  lemma JoinedIsDelivered(c: Config, s: State)
    requires Inv(c, s) && s.runner.Waiting? && AllReturned(s) && s.failure.None?
    ensures AllDelivered(c, s)
  {
    forall i | 0 <= i < |s.segments| ensures Delivered(c, s.segments[i]) {
      assert WorkerOk(c, s.file, s.failure, s.cancelled, s.segments[i], s.workers[i]);
    }
  }

  /** Forgetting the returned goroutines, before the outcome is looked at. */
  lemma CollectedKeeps(c: Config, s: State, t: State)
    requires Inv(c, s) && s.runner.Waiting?
    requires t == s.(workers := AllIdle(|s.segments|), runner := t.runner, status := t.status)
    requires RunnerOk(c, t) && LifecycleOk(c, t) && !t.status.Cancelled?
    ensures Inv(c, t)
  {
    IdleWorkersOk(c, s, t);
  }

  lemma JoinKeeps(c: Config, s: State)
    requires Inv(c, s) && s.runner.Waiting? && AllReturned(s)
    ensures Inv(c, JoinStep(c, s))
  {
    if s.failure.None? {
      JoinedIsDelivered(c, s);
    }
    CollectedKeeps(c, s, JoinStep(c, s));
  }

  lemma SaveFirstKeeps(c: Config, s: State, t: State)
    requires Inv(c, s) && RunnerStep(c, s, SaveFirst(true)) == Some(t)
    ensures Inv(c, t)
  {
    IdleWorkersOk(c, s, t);
  }

  /** A probe fails: the runner backs off, tries the next mirror or gives up. */
  lemma ProbeFaultKeeps(c: Config, s: State)
    requires Inv(c, s) && s.runner.Probing?
    ensures Inv(c, ProbeFaultStep(c, s))
  {
    RunnerMoveKeeps(c, s, ProbeFaultStep(c, s));
  }

  lemma ProbeWaitKeeps(c: Config, s: State, e: RunnerEvent, t: State)
    requires Inv(c, s) && RunnerStep(c, s, e) == Some(t) && (e.ProbeAbort? || e.ProbeWake?)
    ensures Inv(c, t)
  {
    RunnerMoveKeeps(c, s, t);
  }

  /** Setting up the destination fails, and with it the task. */
  lemma FailKeeps(c: Config, s: State)
    requires Inv(c, s) && (s.runner.Allocating? || s.runner.Saving?)
    ensures Inv(c, Fail(s))
  {
    RunnerMoveKeeps(c, s, Fail(s));
  }

  /** Opening the destination fails: the next mirror is tried. */
  lemma OpenFaultKeeps(c: Config, s: State)
    requires Inv(c, s) && s.runner.Mirror?
    ensures Inv(c, NextMirror(c, s, s.runner.url))
  {
    RunnerMoveKeeps(c, s, NextMirror(c, s, s.runner.url));
  }

  lemma MkdirKeeps(c: Config, s: State, ok: bool, t: State)
    requires Inv(c, s) && RunnerStep(c, s, Mkdir(ok)) == Some(t)
    ensures Inv(c, t)
  {
    if ok && |s.segments| == 0 {
      assert s.segments == [];
    }
    RunnerMoveKeeps(c, s, t);
  }

  lemma VerifyKeeps(c: Config, s: State, ok: bool, t: State)
    requires Inv(c, s) && RunnerStep(c, s, Verify(ok)) == Some(t)
    ensures Inv(c, t)
  {
    assert AllDelivered(c, t);
    RunnerMoveKeeps(c, s, t);
  }

  lemma RunnerStepKeeps(c: Config, s: State, e: RunnerEvent, t: State)
    requires Inv(c, s) && RunnerStep(c, s, e) == Some(t)
    ensures Inv(c, t)
  {
    match e {
      case ProbeReply(total, ranged, segs) => PlanKeeps(c, s, total, ranged, segs);
      case Allocate(ok) => if ok { AllocateKeeps(c, s, t); } else { FailKeeps(c, s); }
      case SaveFirst(ok) => if ok { SaveFirstKeeps(c, s, t); } else { FailKeeps(c, s); }
      case Open(ok) => if ok { OpenKeeps(c, s, t); } else { OpenFaultKeeps(c, s); }
      case Launch => LaunchKeeps(c, s);
      case Join => JoinKeeps(c, s);
      case Mkdir(ok) => MkdirKeeps(c, s, ok, t);
      case Verify(ok) => VerifyKeeps(c, s, ok, t);
      case ProbeFault => ProbeFaultKeeps(c, s);
      case _ => ProbeWaitKeeps(c, s, e, t);
    }
  }

  // ---------------------------------------------------------------- control calls and restarts

  lemma CallerMoveKeeps(c: Config, s: State, t: State)
    requires Inv(c, s) && RunnerOk(c, t) && LifecycleOk(c, t)
    requires t == s.(runner := t.runner, status := t.status, cancelled := t.cancelled, ctl := t.ctl,
                     probes := t.probes, fetches := t.fetches)
    requires s.runner.NoRunner? || (s.cancelled ==> t.cancelled)
    requires s.status.Cancelled? ==> t.status.Cancelled?
    ensures Inv(c, t)
  {
    forall i | 0 <= i < |t.workers|
      ensures WorkerOk(c, t.file, t.failure, t.cancelled, t.segments[i], t.workers[i])
    {
      if !s.runner.NoRunner? {
        WorkerKept(c, s.file, t.file, s.failure, t.failure, s.cancelled, t.cancelled, s.segments[i], s.workers[i]);
      }
    }
  }

  lemma DropSidecarKeeps(c: Config, s: State, k: nat, ok: bool, t: State)
    requires Inv(c, s) && CallerStep(c, s, k, DropSidecar(ok)) == Some(t)
    ensures Inv(c, t)
  {
    assert LifecycleOk(c, t);
    IdleWorkersOk(c, s, t);
  }

  lemma DropFileKeeps(c: Config, s: State, k: nat, ok: bool, t: State)
    requires Inv(c, s) && CallerStep(c, s, k, DropFile(ok)) == Some(t)
    ensures Inv(c, t)
  {
    assert LifecycleOk(c, t);
    IdleWorkersOk(c, s, t);
    if ok {
      assert s.saved == {} || c.orphans;
    }
  }

  lemma ReturnKeeps(c: Config, s: State, k: nat, t: State)
    requires Inv(c, s) && CallerStep(c, s, k, Return) == Some(t)
    ensures Inv(c, t)
  {
    assert k == 0;
    CallerMoveKeeps(c, s, t);
  }

  /** The calls that start or stop a run. */
  lemma BeginCallKeeps(c: Config, s: State, k: nat, e: CallEvent, t: State)
    requires Inv(c, s) && CallerStep(c, s, k, e) == Some(t) && (e.Resume? || e.Spawn?)
    ensures Inv(c, t)
  {
    assert LifecycleOk(c, t);
    CallerMoveKeeps(c, s, t);
  }

  lemma StopCallKeeps(c: Config, s: State, k: nat, e: CallEvent, t: State)
    requires Inv(c, s) && CallerStep(c, s, k, e) == Some(t) && (e.Pause? || e.Cancel? || e.Remove?)
    ensures Inv(c, t)
  {
    assert LifecycleOk(c, t);
    CallerMoveKeeps(c, s, t);
  }

  lemma CallerStepKeeps(c: Config, s: State, k: nat, e: CallEvent, t: State)
    requires Inv(c, s) && CallerStep(c, s, k, e) == Some(t)
    ensures Inv(c, t)
  {
    if e.Resume? || e.Spawn? {
      BeginCallKeeps(c, s, k, e, t);
    } else if e.Pause? || e.Cancel? || e.Remove? {
      StopCallKeeps(c, s, k, e, t);
    } else if e.DropSidecar? {
      DropSidecarKeeps(c, s, k, e.ok, t);
    } else if e.DropFile? {
      DropFileKeeps(c, s, k, e.ok, t);
    } else {
      ReturnKeeps(c, s, k, t);
    }
  }

  lemma RestartKeeps(c: Config, s: State, from: Option<Snapshot>)
    requires Inv(c, s) && (from.Some? ==> from.value in s.saved)
    ensures Inv(c, New(c, s, from))
  {
    IdleWorkersOk(c, s, New(c, s, from));
  }

  lemma InitIsSafe(c: Config)
    requires c.callers == 1 && c.mirrors > 0
    ensures Inv(c, Init(c))
  {
  }

  lemma StepKeeps(c: Config, s: State, a: Action, t: State)
    requires Inv(c, s) && Step(c, s, a) == Some(t)
    ensures Inv(c, t)
  {
    match a {
      case OfWorker(i, e) => WorkerStepKeeps(c, s, i, e, t);
      case OfRunner(e) => RunnerStepKeeps(c, s, e, t);
      case OfCaller(k, e) => CallerStepKeeps(c, s, k, e, t);
      case Restart(from) => RestartKeeps(c, s, from);
    }
  }

  lemma {:induction false} RunKeeps(c: Config, s: State, acts: seq<Action>, t: State)
    requires Inv(c, s) && Run(c, s, acts) == Some(t)
    ensures Inv(c, t)
    decreases |acts|
  {
    if acts != [] {
      var mid := Step(c, s, acts[0]).value;
      StepKeeps(c, s, acts[0], mid);
      RunKeeps(c, mid, acts[1..], t);
    }
  }
}
