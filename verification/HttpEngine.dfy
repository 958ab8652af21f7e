/** The segmented HTTP download as a machine whose steps are the atomic actions of its goroutines:
    the control calls, the runner that drives one Resume cycle, and one worker for each segment.
    Whatever the network, the disk and the Go scheduler may choose is carried by the action. */
module HttpEngine {
  import Runs
  import opened Segments
  import opened TaskStatus
  import opened Wrappers

  /** What stays fixed while a destination is being downloaded, across restarts of the program.
      Every mirror serves `payload`; `stale` is what the destination held before the first run. */
  datatype Config = Config(
    payload: seq<byte>, stale: seq<byte>, mirrors: nat, maxConn: int, maxRetry: nat,
    callers: nat,      // threads that may call Resume, Pause, Cancel and Remove at the same time
    shortEof: bool,    // may a server end a body cleanly before the requested range is out?
    orphans: bool)     // may a Remove delete the file while the sidecar survives?

  /** The sidecar record from which a later `New` resumes. */
  datatype Snapshot = Snapshot(total: int, ranged: bool, segments: seq<Segment>)

  /** How one read of a response body ended. */
  datatype ReadEnd = More | Eof | Broken | Aborted

  datatype Failure = Faulty | Canceled

  /** Where the goroutine of one segment stands inside the retry loop and `fetchSegment`. */
  datatype Worker =
    | Idle
    | Asking(attempt: nat)
    | Asked(attempt: nat, offset: int)
    | Reading(attempt: nat, offset: int)
    | Wrote(attempt: nat, offset: int, n: int, after: ReadEnd)
    | Counted(attempt: nat, offset: int, n: int, after: ReadEnd)
    | Published(attempt: nat, offset: int, snap: Snapshot, after: ReadEnd)
    | Settling(attempt: nat, offset: int, after: ReadEnd)
    | Failed(attempt: nat, why: Failure)
    | Backoff(attempt: nat)
    | Done

  /** Where the runner stands inside `run`, `ensureSegments` and `downloadSegments`. */
  datatype Runner =
    | NoRunner
    | Starting
    | Probing(url: nat, attempt: nat)
    | ProbeBackoff(url: nat, attempt: nat)
    | Allocating
    | Saving(first: Snapshot)
    | Mirror(url: nat)
    | Launching(url: nat, next: nat)
    | Waiting(url: nat)
    | Finalizing

  /** A control call in progress on one calling thread. */
  datatype Call = Ready | Resuming | Pausing | Cancelling | Removing | Deleting | Unlinking(sidecarGone: bool)

  datatype State = State(
    status: Status, total: int, ranged: bool, segments: seq<Segment>, downloaded: int, cancelled: bool,
    runner: Runner, workers: seq<Worker>, failure: Option<Failure>, ctl: seq<Call>,
    file: seq<byte>,
    saved: set<Snapshot>,   // every snapshot ever written to the sidecar, stale ones included
    cut: bool,              // the destination has been truncated to size, or removed
    probes: nat, fetches: nat)  // calls of `probe` and `fetchSegment` in this Resume cycle

  datatype WorkerEvent =
    | Ask | Accept | Refuse(why: Failure) | Read(n: int, after: ReadEnd) | WriteFault(n: int)
    | Count | Publish | Save(ok: bool) | Check | Retry | Wake | GiveUp

  datatype RunnerEvent =
    | Mkdir(ok: bool)
    | ProbeReply(total: int, ranged: bool, segs: seq<Segment>) | ProbeFault | ProbeAbort | ProbeWake
    | Allocate(ok: bool) | SaveFirst(ok: bool) | Open(ok: bool) | Launch | Join | Verify(ok: bool)

  datatype CallEvent = Resume | Spawn | Pause | Cancel | Remove | Return | DropSidecar(ok: bool) | DropFile(ok: bool)

  datatype Action =
    | OfWorker(i: nat, worker: WorkerEvent)
    | OfRunner(event: RunnerEvent)
    | OfCaller(k: nat, call: CallEvent)
    | Restart(from: Option<Snapshot>)

  // ---------------------------------------------------------------- files

  /** `WriteAt`: overwrite in place, growing the file (zero-filled) where needed. */
  function WriteAt(file: seq<byte>, data: seq<byte>, offset: nat): seq<byte> {
    seq(Max(|file|, if |data| == 0 then 0 else offset + |data|),
        k requires 0 <= k =>
          if offset <= k < offset + |data| then data[k - offset] else if k < |file| then file[k] else 0)
  }

  function Truncate(file: seq<byte>, size: nat): seq<byte> {
    seq(size, k requires 0 <= k => if k < |file| then file[k] else 0)
  }

  // ---------------------------------------------------------------- workers

  /** The first offset past what segment `seg` has to deliver. */
  function Limit(c: Config, seg: Segment): int {
    if seg.end >= 0 then seg.end + 1 else |c.payload|
  }

  /** The test `downloadSegments` makes before it launches a goroutine. */
  predicate StillNeeded(seg: Segment) {
    seg.end < 0 || seg.current <= seg.end
  }

  function SnapshotOf(s: State): Snapshot {
    Snapshot(s.total, s.ranged, s.segments)
  }

  function SetWorker(s: State, i: nat, w: Worker): State
    requires i < |s.workers|
  {
    s.(workers := s.workers[i := w])
  }

  /** The goroutine returns an error; only the first one of the mirror is kept. */
  function FinishFailed(s: State, i: nat, why: Failure): State
    requires i < |s.workers|
  {
    SetWorker(s, i, Done).(failure := if s.failure.None? then Some(why) else s.failure)
  }

  /** May a truthful server's body yield `n` more bytes at `offset`, and then end like this? */
  predicate MayRead(c: Config, cancelled: bool, seg: Segment, offset: int, n: int, after: ReadEnd) {
    && 0 <= offset && 0 <= n && offset + n <= Limit(c, seg) && offset + n <= |c.payload|
    && (after == Eof ==> c.shortEof || offset + n == Limit(c, seg))
    && (after == Aborted ==> cancelled)
  }

  /** The top of `fetchSegment`: without range support every attempt restarts from 0. */
  function AskStep(s: State, i: nat): State
    requires i < |s.workers| && i < |s.segments| && s.workers[i].Asking?
  {
    var s1 := if s.ranged then s
              else s.(segments := s.segments[i := s.segments[i].(current := 0)], downloaded := 0);
    SetWorker(s1, i, Asked(s.workers[i].attempt, s1.segments[i].current)).(fetches := s.fetches + 1)
  }

  /** One `Read` that yields `n` bytes, and the `WriteAt` of those bytes. */
  function ReadStep(c: Config, s: State, i: nat, n: nat, after: ReadEnd): State
    requires i < |s.workers| && s.workers[i].Reading?
    requires 0 <= s.workers[i].offset && s.workers[i].offset + n <= |c.payload|
  {
    var w := s.workers[i];
    if n == 0 then SetWorker(s, i, Settling(w.attempt, w.offset, after))
    else SetWorker(s, i, Wrote(w.attempt, w.offset, n, after))
         .(file := WriteAt(s.file, c.payload[w.offset..w.offset + n], w.offset))
  }

  /** A `WriteAt` that reports an error after `n` of the bytes reached the disk. */
  function WriteFaultStep(c: Config, s: State, i: nat, n: nat): State
    requires i < |s.workers| && s.workers[i].Reading?
    requires 0 <= s.workers[i].offset && s.workers[i].offset + n <= |c.payload|
  {
    var w := s.workers[i];
    SetWorker(s, i, Failed(w.attempt, Faulty)).(file := WriteAt(s.file, c.payload[w.offset..w.offset + n], w.offset))
  }

  function CountStep(s: State, i: nat): State
    requires i < |s.workers| && s.workers[i].Wrote?
  {
    var w := s.workers[i];
    SetWorker(s, i, Counted(w.attempt, w.offset, w.n, w.after)).(downloaded := s.downloaded + w.n)
  }

  function PublishStep(s: State, i: nat): State
    requires i < |s.workers| && i < |s.segments| && s.workers[i].Counted?
  {
    var w := s.workers[i];
    var s1 := s.(segments := s.segments[i := s.segments[i].(current := w.offset + w.n)]);
    SetWorker(s1, i, Published(w.attempt, w.offset + w.n, SnapshotOf(s1), w.after))
  }

  function SaveStep(s: State, i: nat, ok: bool): State
    requires i < |s.workers| && s.workers[i].Published?
  {
    var w := s.workers[i];
    SetWorker(s, i, Settling(w.attempt, w.offset, w.after)).(saved := if ok then s.saved + {w.snap} else s.saved)
  }

  /** What follows a chunk: the read error if there was one, else the context, else the next read. */
  function CheckStep(s: State, i: nat): State
    requires i < |s.workers| && s.workers[i].Settling?
  {
    var w := s.workers[i];
    SetWorker(s, i, match w.after
                    case Eof => Done
                    case Broken => Failed(w.attempt, Faulty)
                    case Aborted => Failed(w.attempt, Canceled)
                    case More => if s.cancelled then Failed(w.attempt, Canceled) else Reading(w.attempt, w.offset))
  }

  function RetryStep(c: Config, s: State, i: nat): State
    requires i < |s.workers| && s.workers[i].Failed?
  {
    var w := s.workers[i];
    if w.why == Canceled || w.attempt >= c.maxRetry then FinishFailed(s, i, w.why)
    else SetWorker(s, i, Backoff(w.attempt))
  }

  /** The step of worker `i`, or None when it cannot take that step. */
  function WorkerStep(c: Config, s: State, i: nat, e: WorkerEvent): Option<State> {
    if i >= |s.workers| || i >= |s.segments| then None else
    var w, seg := s.workers[i], s.segments[i];
    match e
    case Ask => if w.Asking? then Some(AskStep(s, i)) else None
    case Accept =>
      // A range that starts past its end is invalid, so no server answers it with 206.
      if w.Asked? && (s.ranged ==> w.offset < Limit(c, seg)) then Some(SetWorker(s, i, Reading(w.attempt, w.offset)))
      else None
    case Refuse(why) =>
      if w.Asked? && (why == Canceled ==> s.cancelled) then Some(SetWorker(s, i, Failed(w.attempt, why))) else None
    case Read(n, after) =>
      if w.Reading? && MayRead(c, s.cancelled, seg, w.offset, n, after) then Some(ReadStep(c, s, i, n, after)) else None
    case WriteFault(n) =>
      if w.Reading? && MayRead(c, s.cancelled, seg, w.offset, n, More) then Some(WriteFaultStep(c, s, i, n)) else None
    case Count => if w.Wrote? then Some(CountStep(s, i)) else None
    case Publish => if w.Counted? then Some(PublishStep(s, i)) else None
    case Save(ok) => if w.Published? then Some(SaveStep(s, i, ok)) else None
    case Check => if w.Settling? then Some(CheckStep(s, i)) else None
    case Retry => if w.Failed? then Some(RetryStep(c, s, i)) else None
    case Wake => if w.Backoff? then Some(SetWorker(s, i, Asking(w.attempt + 1))) else None
    case GiveUp => if w.Backoff? && s.cancelled then Some(FinishFailed(s, i, Canceled)) else None
  }

  // ---------------------------------------------------------------- the runner

  function Fail(s: State): State {
    s.(status := Error, runner := NoRunner)
  }

  function NextMirror(c: Config, s: State, url: nat): State {
    if url + 1 < c.mirrors then s.(runner := Mirror(url + 1)) else Fail(s)
  }

  function AllIdle(n: nat): seq<Worker> {
    seq(n, _ => Idle)
  }

  /** What a truthful server may answer the one-byte probe. */
  predicate ProbeAnswer(c: Config, total: int, ranged: bool) {
    && (total == -1 || total == |c.payload|)
    && (ranged ==> |c.payload| > 0)
  }

  ghost predicate FreshSegments(c: Config, total: int, ranged: bool, segs: seq<Segment>) {
    if Bounded(total, ranged) then EvenSplit(segs, total, c.maxConn) else segs == [Segment(0, 0, -1)]
  }

  /** A successful probe: the plan is made in memory before anything is written. */
  function PlanStep(s: State, total: int, ranged: bool, segs: seq<Segment>): State {
    var s1 := s.(total := total, ranged := ranged, segments := segs, workers := AllIdle(|segs|), probes := s.probes + 1);
    s1.(runner := if Bounded(total, ranged) then Allocating else Saving(SnapshotOf(s1)))
  }

  /** A failed probe: back off and retry, try the next mirror, or give up. */
  function ProbeFaultStep(c: Config, s: State): State
    requires s.runner.Probing?
  {
    var s1, url, k := s.(probes := s.probes + 1), s.runner.url, s.runner.attempt;
    if k < c.maxRetry then s1.(runner := ProbeBackoff(url, k))
    else if url + 1 < c.mirrors then s1.(runner := Probing(url + 1, 0))
    else Fail(s1)
  }

  /** One turn of the loop that starts the segment goroutines. */
  function LaunchStep(s: State): State
    requires s.runner.Launching? && |s.workers| == |s.segments|
  {
    var url, next := s.runner.url, s.runner.next;
    if next >= |s.segments| then s.(runner := Waiting(url))
    else (if StillNeeded(s.segments[next]) then SetWorker(s, next, Asking(0)) else s).(runner := Launching(url, next + 1))
  }

  ghost predicate AllReturned(s: State) {
    forall i :: 0 <= i < |s.workers| ==> s.workers[i].Idle? || s.workers[i].Done?
  }

  /** What `run` does with the first error of a mirror whose goroutines have all returned. */
  function JoinStep(c: Config, s: State): State
    requires s.runner.Waiting?
  {
    var s1 := s.(workers := AllIdle(|s.segments|));
    match s.failure
    case None => s1.(runner := Finalizing)
    case Some(Canceled) => s1.(runner := NoRunner)
    case Some(Faulty) => NextMirror(c, s1, s.runner.url)
  }

  /** The step of the runner goroutine, or None when it cannot take that step. */
  ghost function RunnerStep(c: Config, s: State, e: RunnerEvent): Option<State> {
    var r := s.runner;
    match e
    case Mkdir(ok) =>
      if !r.Starting? then None
      else Some(if !ok then Fail(s)
                else s.(runner := if |s.segments| > 0 then Mirror(0) else Probing(0, 0)))
    case ProbeReply(total, ranged, segs) =>
      if r.Probing? && ProbeAnswer(c, total, ranged) && FreshSegments(c, total, ranged, segs)
      then Some(PlanStep(s, total, ranged, segs)) else None
    case ProbeFault => if r.Probing? then Some(ProbeFaultStep(c, s)) else None
    case ProbeAbort =>
      if !s.cancelled then None
      else if r.Probing? then Some(s.(runner := NoRunner, probes := s.probes + 1))
      else if r.ProbeBackoff? then Some(s.(runner := NoRunner))
      else None
    case ProbeWake => if r.ProbeBackoff? then Some(s.(runner := Probing(r.url, r.attempt + 1))) else None
    case Allocate(ok) =>
      if !r.Allocating? || s.total < 0 then None
      else Some(if !ok then Fail(s)
                else s.(file := Truncate(s.file, s.total), cut := true, runner := Saving(SnapshotOf(s))))
    case SaveFirst(ok) =>
      if !r.Saving? then None
      else Some(if !ok then Fail(s) else s.(saved := s.saved + {r.first}, runner := Mirror(0)))
    case Open(ok) =>
      if !r.Mirror? then None
      else Some(if !ok then NextMirror(c, s, r.url)
                else s.(runner := Launching(r.url, 0), failure := None, workers := AllIdle(|s.segments|)))
    case Launch => if r.Launching? && |s.workers| == |s.segments| then Some(LaunchStep(s)) else None
    case Join => if r.Waiting? && AllReturned(s) then Some(JoinStep(c, s)) else None
    case Verify(ok) =>
      if !r.Finalizing? then None
      else Some(if !ok then Fail(s) else s.(status := Complete, runner := NoRunner))
  }

  // ---------------------------------------------------------------- control calls

  /** One critical section of a control call made by caller `k`. `Return` is the part after `wg.Wait`; a Remove then
      deletes the sidecar and the file. */
  function CallerStep(c: Config, s: State, k: nat, e: CallEvent): Option<State> {
    if k >= |s.ctl| then None else
    var free, call := s.(ctl := s.ctl[k := Ready]), s.ctl[k];
    match e
    case Resume =>
      if !call.Ready? then None
      else if s.status.Active? || s.status.Complete? || s.status.Cancelled? then Some(s)
      else Some(s.(status := Active, cancelled := false, ctl := s.ctl[k := Resuming]))
    case Spawn => if call.Resuming? then Some(free.(runner := Starting, probes := 0, fetches := 0)) else None
    case Pause =>
      if !call.Ready? then None
      else if !s.status.Active? then Some(s)
      else Some(s.(cancelled := true, ctl := s.ctl[k := Pausing]))
    case Cancel => if call.Ready? then Some(s.(cancelled := true, ctl := s.ctl[k := Cancelling])) else None
    case Remove => if call.Ready? then Some(s.(cancelled := true, ctl := s.ctl[k := Removing])) else None
    case DropSidecar(ok) =>
      if call.Deleting? then Some(s.(saved := if ok then {} else s.saved, ctl := s.ctl[k := Unlinking(ok)])) else None
    case DropFile(ok) =>
      // Neither error stops the Remove.
      if !call.Unlinking? || (ok && !call.sidecarGone && !c.orphans) then None
      else Some(if ok then free.(file := [], cut := true) else free)
    case Return =>
      if !s.runner.NoRunner? then None else
      match call
      case Pausing => Some(free.(status := if s.status.Active? then Paused else s.status))
      case Cancelling => Some(free.(status := Cancelled))
      case Removing => Some(s.(status := Cancelled, ctl := s.ctl[k := Deleting]))
      case _ => None
  }

  function Progress(segs: seq<Segment>): int {
    if segs == [] then 0 else segs[0].current - segs[0].start + Progress(segs[1..])
  }

  /** A new Task on the same destination: memory is lost, the file and the sidecar stay. */
  function New(c: Config, s: State, from: Option<Snapshot>): State {
    var snap := if from.Some? then from.value else Snapshot(0, false, []);
    State(Pending, snap.total, snap.ranged, snap.segments, Progress(snap.segments), false,
          NoRunner, AllIdle(|snap.segments|), None, seq(c.callers, _ => Ready),
          s.file, s.saved, s.cut, 0, 0)
  }

  // ---------------------------------------------------------------- runs

  ghost function Step(c: Config, s: State, a: Action): Option<State> {
    match a
    case OfWorker(i, e) => WorkerStep(c, s, i, e)
    case OfRunner(e) => RunnerStep(c, s, e)
    case OfCaller(k, e) => CallerStep(c, s, k, e)
    case Restart(from) => if from.Some? && from.value !in s.saved then None else Some(New(c, s, from))
  }

  /** The machine of one destination. */
  ghost function Stepper(c: Config): (State, Action) -> Option<State> {
    (s: State, a: Action) => Step(c, s, a)
  }

  ghost function Run(c: Config, s: State, acts: seq<Action>): Option<State> {
    Runs.After(Stepper(c), s, acts)
  }

  function Init(c: Config): State {
    State(Pending, 0, false, [], 0, false, NoRunner, [], None, seq(c.callers, _ => Ready),
          c.stale, {}, false, 0, 0)
  }
}
