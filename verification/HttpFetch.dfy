/** `fetchSegment` and its retry loop as the code runs them, one goroutine among others. */
module HttpFetch {
  import opened HttpEngine
  import opened HttpEngineSafety
  import opened HttpEngineTheorems
  import Runs
  import opened Segments
  import opened TaskStatus
  import opened Wrappers

  /** What one read of a body, and the write and save after it, will meet. */
  datatype Chunk = Data(n: nat, after: ReadEnd, saveOk: bool) | DiskFault(n: nat)

  /** What one request will meet. */
  datatype Reply = Refused(why: Failure) | Body(chunks: seq<Chunk>)

  /** The action is a step of another goroutine, a control call or the runner. */
  predicate NotOurs(a: Action, i: nat) {
    !a.Restart? && (a.OfWorker? ==> a.i != i)
  }

  ghost predicate Live(s: State, i: nat) {
    i < |s.workers| && !s.workers[i].Idle? && !s.workers[i].Done?
  }

  /** What goroutine `i` may rely on when one step of the others takes `s` to `t`. */
  ghost predicate LeftAlone(s: State, i: nat, t: State) {
    && i < |s.workers| == |s.segments| && |t.workers| == |s.workers| && |t.segments| == |s.segments|
    && t.workers[i] == s.workers[i] && t.segments[i] == s.segments[i]
    && t.ranged == s.ranged && (s.cancelled ==> t.cancelled)
  }

  lemma OtherStepLeavesUsAlone(c: Config, s: State, a: Action, i: nat, t: State)
    requires Inv(c, s) && Live(s, i) && NotOurs(a, i) && Step(c, s, a) == Some(t)
    ensures LeftAlone(s, i, t)
  {
    assert s.runner.Launching? || s.runner.Waiting?;
    match a {
      case OfWorker(j, e) => WorkerTouchesItself(c, s, j, e, t);
      case OfRunner(e) => RunnerLeavesAlone(c, s, i, e, t);
      case OfCaller(k, e) => CallerLeavesAlone(c, s, i, k, e, t);
    }
  }

  lemma RunnerLeavesAlone(c: Config, s: State, i: nat, e: RunnerEvent, t: State)
    requires Live(s, i) && |s.workers| == |s.segments| && RunnerStep(c, s, e) == Some(t)
    requires (s.runner.Launching? && LaunchedUpTo(s, s.runner.next)) || s.runner.Waiting?
    ensures LeftAlone(s, i, t)
  {
    assert !AllReturned(s);
    assert e.Launch?;
  }

  lemma CallerLeavesAlone(c: Config, s: State, i: nat, k: nat, e: CallEvent, t: State)
    requires Live(s, i) && |s.workers| == |s.segments| && CallerStep(c, s, k, e) == Some(t)
    requires |s.ctl| == 1 && s.status.Active? && !s.runner.NoRunner?
    ensures LeftAlone(s, i, t)
  {
  }

  lemma WorkerTouchesItself(c: Config, s: State, i: nat, e: WorkerEvent, t: State)
    requires WorkerStep(c, s, i, e) == Some(t)
    ensures |t.workers| == |s.workers| && |t.segments| == |s.segments| && t.ranged == s.ranged && t.cancelled == s.cancelled
    ensures forall j :: 0 <= j < |s.workers| && j != i ==> t.workers[j] == s.workers[j]
    ensures forall j :: 0 <= j < |s.segments| && j != i ==> t.segments[j] == s.segments[j]
  {
    OneWorkerStep(c, s, i, e, t);
  }

  lemma OneWorkerStep(c: Config, s: State, i: nat, e: WorkerEvent, t: State)
    requires WorkerStep(c, s, i, e) == Some(t)
    ensures i < |s.workers| && |t.workers| == |s.workers| && t.workers == s.workers[i := t.workers[i]]
    ensures i < |s.segments| && |t.segments| == |s.segments| && t.segments == s.segments[i := t.segments[i]]
    ensures t.ranged == s.ranged && t.cancelled == s.cancelled
  {
    assert s.segments == s.segments[i := s.segments[i]];
  }

  /** What a goroutine may rely on while others run. */
  lemma {:induction false} OthersLeaveUsAlone(c: Config, s: State, acts: seq<Action>, i: nat, t: State)
    requires Inv(c, s) && Live(s, i) && Run(c, s, acts) == Some(t)
    requires forall k :: 0 <= k < |acts| ==> NotOurs(acts[k], i)
    ensures Inv(c, t)
    ensures |t.workers| == |s.workers| && |t.segments| == |s.segments|
    ensures t.workers[i] == s.workers[i] && t.segments[i] == s.segments[i]
    ensures t.ranged == s.ranged && (s.cancelled ==> t.cancelled)
    decreases |acts|
  {
    if acts != [] {
      var mid := Step(c, s, acts[0]).value;
      StepKeeps(c, s, acts[0], mid);
      OtherStepLeavesUsAlone(c, s, acts[0], i, mid);
      assert forall k :: 0 <= k < |acts| - 1 ==> acts[1..][k] == acts[k + 1];
      OthersLeaveUsAlone(c, mid, acts[1..], i, t);
    }
  }

  /** The steps of goroutine `i` among all that were taken. */
  ghost function Own(i: nat, acts: seq<Action>): seq<WorkerEvent> {
    if acts == [] then []
    else
      var last := acts[|acts| - 1];
      Own(i, acts[..|acts| - 1]) + if last.OfWorker? && last.i == i then [last.worker] else []
  }

  lemma {:induction false} OwnSkips(i: nat, past: seq<Action>, rest: seq<Action>)
    requires forall k :: 0 <= k < |rest| ==> NotOurs(rest[k], i)
    ensures Own(i, past + rest) == Own(i, past)
    decreases |rest|
  {
    if rest == [] {
      assert past + rest == past;
    } else {
      var init := rest[..|rest| - 1];
      assert (past + rest)[..|past + rest| - 1] == past + init;
      OwnSkips(i, past, init);
    }
  }

  lemma OwnTakes(i: nat, past: seq<Action>, e: WorkerEvent)
    ensures Own(i, past + [OfWorker(i, e)]) == Own(i, past) + [e]
  {
    assert (past + [OfWorker(i, e)])[..|past|] == past;
  }

  /** The effects of one turn of the read loop, in their order. */
  function TurnOf(n: int, after: ReadEnd, saveOk: bool): seq<WorkerEvent> {
    if n > 0 then [Read(n, after), Count, Publish, Save(saveOk), Check] else [Read(n, after), Check]
  }

  /** What a body can make of a chunk, with `room` bytes to go: as much as there is room for, and the end that was
      asked for, unless a truthful server or a live context rules that end out. */
  predicate Granted(c: Config, room: int, chunk: Chunk, n: nat, after: ReadEnd)
    requires chunk.Data?
  {
    && n == Min(chunk.n, room)
    && (after == chunk.after
        || (after == Broken && (chunk.after == Aborted || (chunk.after == Eof && !c.shortEof && n != room))))
  }

  /** A turn that met `chunk` at `offset`, `room` bytes before the limit, and ended at `next`, took these steps and had
      this outcome. */
  predicate OneTurn(c: Config, room: int, events: seq<WorkerEvent>, chunk: Chunk, offset: int, next: int, ended: bool,
                    err: Option<Failure>)
  {
    if chunk.DiskFault? then
      events == [WriteFault(Min(chunk.n, room))] && next == offset && ended && err == Some(Faulty)
    else
      && events != [] && events[0].Read? && events[0].n >= 0 && Granted(c, room, chunk, events[0].n, events[0].after)
      && events == TurnOf(events[0].n, events[0].after, chunk.saveOk) && next == offset + events[0].n
      && Outcome(events[0].after, ended, err)
  }

  /** A body that is out of chunks without having ended is a broken connection. */
  function ChunkAt(chunks: seq<Chunk>, k: nat): Chunk {
    if k < |chunks| then chunks[k] else Data(0, Broken, true)
  }

  /** The turns of a read loop that met the chunks one after the other: only the last ends the loop. */
  ghost predicate TurnsOk(c: Config, limit: int, chunks: seq<Chunk>, start: int, turns: seq<seq<WorkerEvent>>,
                          offsets: seq<int>, ended: bool, err: Option<Failure>)
  {
    && |offsets| == |turns| + 1 && offsets[0] == start && (ended ==> turns != [])
    && forall k :: 0 <= k < |turns| ==>
         var last := ended && k == |turns| - 1;
         OneTurn(c, limit - offsets[k], turns[k], ChunkAt(chunks, k), offsets[k], offsets[k + 1], last, if last then err else None)
  }

  lemma AnotherTurn(c: Config, limit: int, chunks: seq<Chunk>, start: int, turns: seq<seq<WorkerEvent>>, offsets: seq<int>,
                    events: seq<WorkerEvent>, next: int, ended: bool, err: Option<Failure>)
    requires TurnsOk(c, limit, chunks, start, turns, offsets, false, None)
    requires var o := offsets[|turns|];
             OneTurn(c, limit - o, events, ChunkAt(chunks, |turns|), o, next, ended, if ended then err else None)
    ensures TurnsOk(c, limit, chunks, start, turns + [events], offsets + [next], ended, err)
  {
  }

  function Joined<T>(parts: seq<seq<T>>): seq<T> {
    if parts == [] then [] else Joined(parts[..|parts| - 1]) + parts[|parts| - 1]
  }

  /** The read loop between two turns, or after the last: its steps are those of its turns. */
  ghost predicate BodySoFar(c: Config, limit: int, chunks: seq<Chunk>, start: int, turns: seq<seq<WorkerEvent>>,
                            offsets: seq<int>, ended: bool, err: Option<Failure>, past: seq<WorkerEvent>, own: seq<WorkerEvent>)
  {
    TurnsOk(c, limit, chunks, start, turns, offsets, ended, err) && own == past + Joined(turns)
  }

  lemma BodyTurn(c: Config, limit: int, chunks: seq<Chunk>, start: int, turns: seq<seq<WorkerEvent>>, offsets: seq<int>,
                 offset: int, events: seq<WorkerEvent>, next: int, ended: bool, err: Option<Failure>,
                 past: seq<WorkerEvent>, before: seq<WorkerEvent>, own: seq<WorkerEvent>)
    requires BodySoFar(c, limit, chunks, start, turns, offsets, false, None, past, before) && offsets[|turns|] == offset
    requires OneTurn(c, limit - offset, events, ChunkAt(chunks, |turns|), offset, next, ended, if ended then err else None)
    requires own == before + events
    ensures BodySoFar(c, limit, chunks, start, turns + [events], offsets + [next], ended, err, past, own)
  {
    AnotherTurn(c, limit, chunks, start, turns, offsets, events, next, ended, err);
    JoinedNext(turns, events);
  }

  lemma JoinedNext<T>(parts: seq<seq<T>>, part: seq<T>)
    ensures Joined(parts + [part]) == Joined(parts) + part
  {
    assert (parts + [part])[..|parts|] == parts;
  }

  /** One attempt at a segment: what it sent, and what came of it. */
  datatype Attempt = Attempt(ranged: bool, seg: Segment, events: seq<WorkerEvent>, err: Option<Failure>)

  /** The attempt met `reply`: a refused request, or one for nothing, ends there; otherwise the body is read to its end. */
  ghost predicate AttemptOk(c: Config, reply: Reply, a: Attempt) {
    if reply.Refused? || (a.ranged && a.seg.current >= Limit(c, a.seg)) then
      a.err.Some? && a.events == [Ask, Refuse(a.err.value)] && (a.err == Some(Faulty) || reply == Refused(Canceled))
    else
      exists turns, offsets ::
        a.events == [Ask, Accept] + Joined(turns)
        && TurnsOk(c, Limit(c, a.seg), reply.chunks, a.seg.current, turns, offsets, true, a.err)
  }

  /** The read error decides before the context does. */
  predicate Outcome(after: ReadEnd, ended: bool, err: Option<Failure>) {
    match after
    case Eof => ended && err.None?
    case Broken => ended && err == Some(Faulty)
    case Aborted => ended && err == Some(Canceled)
    case More => ended ==> err == Some(Canceled)
  }

  function ReplyAt(replies: seq<Reply>, k: nat): Reply {
    if k < |replies| then replies[k] else Refused(Faulty)
  }

  /** The steps after a failed attempt. */
  function AfterFault(c: Config, attempt: nat, why: Failure, err: Option<Failure>): seq<WorkerEvent> {
    if why == Canceled || attempt >= c.maxRetry then [Retry] else if err.Some? then [Retry, GiveUp] else [Retry, Wake]
  }

  /** The same, when the attempt may have succeeded. */
  function Aftermath(c: Config, attempt: nat, fault: Option<Failure>, err: Option<Failure>): seq<WorkerEvent> {
    if fault.None? then [] else AfterFault(c, attempt, fault.value, err)
  }

  /** What an attempt leads to: success ends the loop; a fault is repeated as long as the limit allows, unless the context
      is cancelled; the last fault, or the cancellation, is the result. */
  predicate RoundOk(c: Config, attempt: nat, fault: Option<Failure>, again: bool, err: Option<Failure>) {
    match fault
    case None => !again && err.None?
    case Some(Canceled) => !again && err == Some(Canceled)
    case Some(Faulty) =>
      if attempt >= c.maxRetry then !again && err == Some(Faulty)
      else if again then err.None? else err == Some(Canceled)
  }

  lemma RoundsNext(log: seq<Attempt>, last: Attempt)
    ensures (log + [last])[..|log|] == log
    ensures Rounds(log + [last]) == Rounds(log) + last.events + [Retry, Wake]
  {
    assert (log + [last])[..|log|] == log;
  }

  /** Failed attempts, each with its back-off. */
  function Rounds(log: seq<Attempt>): seq<WorkerEvent> {
    if log == [] then [] else Rounds(log[..|log| - 1]) + log[|log| - 1].events + [Retry, Wake]
  }

  /** The retry loop between two rounds: its steps are those of failed attempts with their back-offs. */
  ghost predicate LoopSoFar(c: Config, replies: seq<Reply>, log: seq<Attempt>, past: seq<WorkerEvent>, own: seq<WorkerEvent>) {
    LogOk(c, replies, log) && (forall k :: 0 <= k < |log| ==> log[k].err == Some(Faulty)) && own == past + Rounds(log)
  }

  /** The retry loop at its end. */
  ghost predicate LoopDone(c: Config, replies: seq<Reply>, log: seq<Attempt>, err: Option<Failure>, past: seq<WorkerEvent>,
                           own: seq<WorkerEvent>)
  {
    && 0 < |log| <= c.maxRetry + 1 && LogOk(c, replies, log)
    && var n, last := |log| - 1, log[|log| - 1];
       && RoundOk(c, n, last.err, false, err)
       && own == past + Rounds(log[..n]) + last.events + Aftermath(c, n, last.err, err)
  }

  lemma LoopRound(c: Config, replies: seq<Reply>, log: seq<Attempt>, last: Attempt, again: bool, err: Option<Failure>,
                  past: seq<WorkerEvent>, before: seq<WorkerEvent>, own: seq<WorkerEvent>)
    requires LoopSoFar(c, replies, log, past, before) && |log| <= c.maxRetry
    requires AttemptOk(c, ReplyAt(replies, |log|), last) && RoundOk(c, |log|, last.err, again, err)
    requires own == before + last.events + Aftermath(c, |log|, last.err, err)
    ensures again ==> |log| < c.maxRetry && LoopSoFar(c, replies, log + [last], past, own)
    ensures !again ==> LoopDone(c, replies, log + [last], err, past, own)
  {
    LogNext(c, replies, log, last);
    RoundsNext(log, last);
  }

  lemma LogNext(c: Config, replies: seq<Reply>, log: seq<Attempt>, last: Attempt)
    requires LogOk(c, replies, log) && (forall k :: 0 <= k < |log| ==> log[k].err == Some(Faulty))
    requires AttemptOk(c, ReplyAt(replies, |log|), last)
    ensures LogOk(c, replies, log + [last])
  {
  }

  /** The attempts met the replies one after the other, and all but the last were faults. */
  ghost predicate LogOk(c: Config, replies: seq<Reply>, log: seq<Attempt>) {
    && (forall k :: 0 <= k < |log| ==> AttemptOk(c, ReplyAt(replies, k), log[k]))
    && (forall k :: 0 <= k < |log| - 1 ==> log[k].err == Some(Faulty))
  }

  /** The bytes a snapshot says have arrived. */
  method SumProgress(segs: seq<Segment>) returns (downloaded: int)
    ensures downloaded == Progress(segs)
  {
    downloaded := 0;
    for i := 0 to |segs|
      invariant downloaded + Progress(segs[i..]) == Progress(segs)
    {
      downloaded := downloaded + segs[i].current - segs[i].start;
      assert segs[i..][1..] == segs[i + 1..];
    }
  }

  /** The Task object as its goroutines share it. */
  class Task {
    const c: Config
    var status: Status
    var total: int
    var ranged: bool
    var segments: seq<Segment>
    var downloaded: int
    var cancelled: bool
    var file: seq<byte>
    var saved: set<Snapshot>
    ghost var workers: seq<Worker>
    ghost var runner: Runner
    ghost var failure: Option<Failure>
    ghost var ctl: seq<Call>
    ghost var cut: bool
    ghost var probes: nat
    ghost var fetches: nat
    ghost var history: seq<Action>   // every step taken since the first run

    ghost function View(): State
      reads this
    {
      State(status, total, ranged, segments, downloaded, cancelled, runner, workers, failure, ctl, file, saved, cut,
            probes, fetches)
    }

    ghost predicate Valid()
      reads this
    {
      Serialised(c) && Reaches(c, history, View())
    }

    constructor (c: Config)
      requires Serialised(c)
      ensures Valid() && this.c == c && View() == Init(c)
    {
      this.c := c;
      var s := Init(c);
      status, total, ranged, segments, downloaded := s.status, s.total, s.ranged, s.segments, s.downloaded;
      cancelled, file, saved, workers, runner := s.cancelled, s.file, s.saved, s.workers, s.runner;
      failure, ctl, cut, probes, fetches, history := s.failure, s.ctl, s.cut, s.probes, s.fetches, [];
    }

    /** In the object's own terms: once the status is Complete, the payload is on disk. */
    lemma CompleteHasPayload()
      requires Valid() && !c.shortEof && !c.orphans && status.Complete?
      ensures file == c.payload + StaleTail(c, View())
    {
      CompleteDelivers(c, history, View());
    }

    /** `New` on a destination that an earlier Task has left, with the sidecar it finds there, if any. */
    constructor Reload(previous: Task, from: Option<Snapshot>)
      requires previous.Valid() && (from.Some? ==> from.value in previous.saved)
      ensures Valid() && c == previous.c && View() == New(c, previous.View(), from)
      ensures history == previous.history + [Restart(from)]
    {
      var snap := if from.Some? then from.value else Snapshot(0, false, []);
      c, file, saved, status := previous.c, previous.file, previous.saved, Pending;
      total, ranged, segments, cancelled := snap.total, snap.ranged, snap.segments, false;
      workers, runner, failure := AllIdle(|snap.segments|), NoRunner, None;
      ctl, cut, probes, fetches := seq(previous.c.callers, _ => Ready), previous.cut, 0, 0;
      history := previous.history + [Restart(from)];
      new;
      downloaded := SumProgress(segments);
      var longer, t := Runs.Take(Stepper(c), Init(c), previous.history, previous.View(), Restart(from));
    }

    /** Any number of steps of other goroutines, the runner and control calls may run here. */
    method Others(i: nat)
      requires Valid()
      modifies this
      ensures Valid() && old(history) <= history
      ensures forall k :: |old(history)| <= k < |history| ==> NotOurs(history[k], i)
    {
    }

    /** What goroutine `i` still knows after others have run. */
    method Yield(i: nat)
      requires Valid() && Live(View(), i)
      modifies this
      ensures Valid() && Live(View(), i) && old(history) <= history
      ensures |workers| == |segments| == old(|segments|)
      ensures workers[i] == old(workers[i]) && segments[i] == old(segments[i])
      ensures ranged == old(ranged) && (old(cancelled) ==> cancelled)
      ensures Own(i, history) == Own(i, old(history))
    {
      ghost var before, past := View(), history;
      ReachableIsSafe(c, past, before);
      Others(i);
      ghost var rest := history[|past|..];
      assert history == past + rest;
      Runs.Concat(Stepper(c), Init(c), past, before, rest);
      OthersLeaveUsAlone(c, before, rest, i, View());
      OwnSkips(i, past, rest);
    }

    /** The fields now hold what step `e` of worker `i` makes of `before`. */
    ghost method Took(before: State, i: nat, e: WorkerEvent)
      requires Serialised(c) && Reaches(c, history, before)
      requires WorkerStep(c, before, i, e) == Some(View())
      modifies `history
      ensures Valid() && history == old(history) + [OfWorker(i, e)]
      ensures Own(i, history) == Own(i, old(history)) + [e]
    {
      OwnTakes(i, history, e);
      var longer, t := Runs.Take(Stepper(c), Init(c), history, before, OfWorker(i, e));
      history := longer;
    }

    /** The top of `fetchSegment`, under the lock. */
    method Begin(i: nat) returns (seg: Segment)
      requires Valid() && i < |workers| && workers[i].Asking?
      modifies this
      ensures Valid() && old(history) <= history
      ensures i < |workers| == |segments| && seg == segments[i]
      ensures workers[i] == Asked(old(workers[i]).attempt, seg.current)
      ensures !ranged ==> seg.current == 0 && downloaded == 0
      ensures Own(i, history) == Own(i, old(history)) + [Ask]
    {
      Yield(i);
      ghost var before := View();
      if !ranged {
        segments := segments[i := segments[i].(current := 0)];
        downloaded := 0;
      }
      seg := segments[i];
      workers := workers[i := Asked(workers[i].attempt, seg.current)];
      fetches := fetches + 1;
      Took(before, i, Ask);
    }

    /** Adds a chunk that is on disk to the byte counter. */
    method CountChunk(i: nat, n: int)
      requires Valid() && i < |workers| == |segments| && workers[i].Wrote? && workers[i].n == n
      modifies this
      ensures Valid() && old(history) <= history && i < |workers| == |segments|
      ensures var w := old(workers[i]); workers[i] == Counted(w.attempt, w.offset, n, w.after)
      ensures Own(i, history) == Own(i, old(history)) + [Count] && segments[i] == old(segments[i])
    {
      Yield(i);
      ghost var before := View();
      downloaded := downloaded + n;
      workers := workers[i := Counted(workers[i].attempt, workers[i].offset, n, workers[i].after)];
      Took(before, i, Count);
    }

    /** Advances the segment and takes the snapshot to save, under the lock. */
    method PublishOffset(i: nat, next: int) returns (snap: Snapshot)
      requires Valid() && i < |workers| == |segments| && workers[i].Counted?
      requires workers[i].offset + workers[i].n == next
      modifies this
      ensures Valid() && old(history) <= history && i < |workers| == |segments|
      ensures segments[i] == old(segments[i]).(current := next) && snap == SnapshotOf(View())
      ensures Own(i, history) == Own(i, old(history)) + [Publish]
      ensures workers[i] == Published(old(workers[i]).attempt, next, snap, old(workers[i]).after)
    {
      Yield(i);
      ghost var before := View();
      segments := segments[i := segments[i].(current := next)];
      snap := Snapshot(total, ranged, segments);
      workers := workers[i := Published(workers[i].attempt, next, snap, workers[i].after)];
      Took(before, i, Publish);
    }

    /** Writes the sidecar; the result is ignored. */
    method SaveSnapshot(i: nat, snap: Snapshot, saveOk: bool)
      requires Valid() && i < |workers| == |segments| && workers[i].Published? && workers[i].snap == snap
      modifies this
      ensures Valid() && old(history) <= history && i < |workers| == |segments|
      ensures segments[i] == old(segments[i]) && (saveOk ==> snap in saved)
      ensures Own(i, history) == Own(i, old(history)) + [Save(saveOk)]
      ensures var w := old(workers[i]); workers[i] == Settling(w.attempt, w.offset, w.after)
    {
      Yield(i);
      ghost var before := View();
      if saveOk {
        saved := saved + {snap};
      }
      workers := workers[i := Settling(workers[i].attempt, workers[i].offset, workers[i].after)];
      Took(before, i, Save(saveOk));
    }

    /** Writes `n` bytes of the body at `offset`. */
    method WriteChunk(i: nat, offset: nat, n: nat, after: ReadEnd)
      requires Valid() && i < |workers| == |segments| && workers[i].Reading? && workers[i].offset == offset
      requires n > 0 && MayRead(c, cancelled, segments[i], offset, n, after)
      modifies this
      ensures Valid() && old(history) <= history && i < |workers| == |segments|
      ensures workers[i] == Wrote(old(workers[i]).attempt, offset, n, after) && segments[i] == old(segments[i])
      ensures Own(i, history) == Own(i, old(history)) + [Read(n, after)]
    {
      ghost var before := View();
      file := WriteAt(file, c.payload[offset..offset + n], offset);
      workers := workers[i := Wrote(workers[i].attempt, offset, n, after)];
      Took(before, i, Read(n, after));
    }

    /** Writes part of a chunk and reports a disk error. */
    method WriteFails(i: nat, offset: nat, n: nat)
      requires Valid() && i < |workers| == |segments| && workers[i].Reading? && workers[i].offset == offset
      requires MayRead(c, cancelled, segments[i], offset, n, More)
      modifies this
      ensures Valid() && old(history) <= history && i < |workers| == |segments|
      ensures workers[i] == Failed(old(workers[i]).attempt, Faulty) && segments[i] == old(segments[i])
      ensures Own(i, history) == Own(i, old(history)) + [WriteFault(n)]
    {
      ghost var before := View();
      file := WriteAt(file, c.payload[offset..offset + n], offset);
      workers := workers[i := Failed(workers[i].attempt, Faulty)];
      Took(before, i, WriteFault(n));
    }

    /** What a truthful body yields when it is asked for `chunk`. */
    function Truthful(i: nat, offset: int, n: nat, after: ReadEnd): (r: (nat, ReadEnd))
      requires i < |segments| && 0 <= offset <= Limit(c, segments[i]) <= |c.payload|
      reads this
      ensures MayRead(c, cancelled, segments[i], offset, r.0, r.1)
      ensures MayRead(c, cancelled, segments[i], offset, n, after) ==> r == (n, after)
      ensures Granted(c, Limit(c, segments[i]) - offset, Data(n, after, true), r.0, r.1)
    {
      var room := Limit(c, segments[i]) - offset;
      var m := if n <= room then n else room;
      if (after == Eof && !c.shortEof && m != room) || (after == Aborted && !cancelled) then (m, Broken) else (m, after)
    }

    /** Where a turn of the read loop leaves the goroutine: before the next one, failed, or done with its segment. */
    ghost predicate Turned(i: nat, attempt: nat, next: int, ended: bool, err: Option<Failure>)
      requires i < |workers| == |segments|
      reads this
    {
      if !ended then workers[i] == Reading(attempt, next)
      else if err.Some? then workers[i] == Failed(attempt, err.value)
      else workers[i].Done? && Delivered(c, segments[i])
    }

    /** One turn of the read loop: read, write, count, publish, save, then look at the read error and the context.
        Yields the new offset and, when the loop ends, the result of `fetchSegment`; `events` are the steps taken. */
    method ReadOnce(i: nat, offset: int, chunk: Chunk)
      returns (next: int, ended: bool, err: Option<Failure>, ghost events: seq<WorkerEvent>)
      requires Valid() && i < |workers| == |segments| && workers[i].Reading? && workers[i].offset == offset
      modifies this
      ensures Valid() && old(history) <= history && i < |workers| == |segments| && segments[i].end == old(segments[i]).end
      ensures Own(i, history) == Own(i, old(history)) + events
      ensures OneTurn(c, Limit(c, old(segments[i])) - offset, events, chunk, offset, next, ended, err)
      ensures chunk.Data? && events[0].after.More? ==> (ended <==> cancelled)
      ensures Turned(i, old(workers[i]).attempt, next, ended, err)
    {
      Yield(i);
      OffsetInRange(i);
      if chunk.DiskFault? {
        var part := Truthful(i, offset, chunk.n, More);
        WriteFails(i, offset, part.0);
        return offset, true, Some(Faulty), [WriteFault(part.0)];
      }
      var got := Truthful(i, offset, chunk.n, chunk.after);
      var n, after := got.0, got.1;
      StoreChunk(i, offset, n, after, chunk.saveOk);
      ended, err := Settle(i, after);
      next, events := offset + n, TurnOf(n, after, chunk.saveOk);
    }

    /** What happens to the bytes of one read, if there are any. */
    method StoreChunk(i: nat, offset: int, n: nat, after: ReadEnd, saveOk: bool)
      requires Valid() && i < |workers| == |segments| && workers[i].Reading? && workers[i].offset == offset
      requires MayRead(c, cancelled, segments[i], offset, n, after)
      modifies this
      ensures Valid() && old(history) <= history && i < |workers| == |segments|
      ensures workers[i] == Settling(old(workers[i]).attempt, offset + n, after) && segments[i].end == old(segments[i]).end
      ensures Own(i, history) + [Check] == Own(i, old(history)) + TurnOf(n, after, saveOk)
    {
      if n > 0 {
        WriteChunk(i, offset, n, after);
        RecordChunk(i, offset, n, saveOk);
      } else {
        SkipChunk(i, offset, after);
      }
    }

    /** Nothing was read, so nothing is written. */
    ghost method SkipChunk(i: nat, offset: int, after: ReadEnd)
      requires Valid() && i < |workers| == |segments| && workers[i].Reading? && workers[i].offset == offset
      requires MayRead(c, cancelled, segments[i], offset, 0, after)
      modifies `workers, `history
      ensures Valid() && old(history) <= history && i < |workers| == |segments|
      ensures workers[i] == Settling(old(workers[i]).attempt, offset, after)
      ensures Own(i, history) == Own(i, old(history)) + [Read(0, after)]
    {
      var before := View();
      workers := workers[i := Settling(workers[i].attempt, offset, after)];
      Took(before, i, Read(0, after));
    }

    /** Counts, publishes and saves a chunk that is on disk, in that order. */
    method RecordChunk(i: nat, offset: int, n: int, saveOk: bool)
      requires Valid() && i < |workers| == |segments| && workers[i].Wrote?
      requires workers[i].offset == offset && workers[i].n == n
      modifies this
      ensures Valid() && old(history) <= history && i < |workers| == |segments|
      ensures var w := old(workers[i]); workers[i] == Settling(w.attempt, offset + n, w.after)
      ensures segments[i].end == old(segments[i]).end
      ensures Own(i, history) == Own(i, old(history)) + [Count, Publish, Save(saveOk)]
    {
      CountChunk(i, n);
      var snap := PublishOffset(i, offset + n);
      SaveSnapshot(i, snap, saveOk);
    }

    lemma OffsetInRange(i: nat)
      requires Valid() && i < |workers| == |segments| && workers[i].Reading?
      ensures 0 <= workers[i].offset <= Limit(c, segments[i]) <= |c.payload|
    {
      ReachableIsSafe(c, history, View());
      InvIsLocal(c, View(), i);
      var last := |segments| - 1;
      if i < last {
        SegmentsAscend(segments, total, i, last);
      }
    }

    /** The checks at the bottom of the read loop. */
    method Settle(i: nat, after: ReadEnd) returns (ended: bool, err: Option<Failure>)
      requires Valid() && i < |workers| == |segments| && workers[i].Settling? && workers[i].after == after
      modifies this
      ensures Valid() && old(history) <= history && i < |workers| == |segments|
      ensures Own(i, history) == Own(i, old(history)) + [Check] && Outcome(after, ended, err)
      ensures segments[i] == old(segments[i]) && (after.More? ==> (ended <==> cancelled))
      ensures Turned(i, old(workers[i]).attempt, old(workers[i]).offset, ended, err)
    {
      ghost var k, o := workers[i].attempt, workers[i].offset;
      Yield(i);
      ghost var before := View();
      ReachableIsSafe(c, history, before);
      assert WorkerOk(c, file, failure, cancelled, segments[i], workers[i]);
      ended, err := true, None;
      match after {
        case Eof =>
        case Broken => err := Some(Faulty);
        case Aborted => err := Some(Canceled);
        case More =>
          if cancelled {
            err := Some(Canceled);
          } else {
            ended := false;
          }
      }
      workers := workers[i := if !ended then Reading(k, o) else if err.Some? then Failed(k, err.value) else Done];
      Took(before, i, Check);
    }

    /** One attempt at segment `i`. Returns None only when the segment is delivered; `log` is what was done. */
    method FetchSegment(i: nat, reply: Reply) returns (err: Option<Failure>, ghost log: Attempt)
      requires Valid() && i < |workers| && workers[i].Asking?
      modifies this
      ensures Valid() && old(history) <= history && i < |workers| == |segments|
      ensures Own(i, history) == Own(i, old(history)) + log.events && AttemptOk(c, reply, log) && log.err == err
      ensures err.Some? ==> workers[i] == Failed(old(workers[i]).attempt, err.value)
      ensures err.None? ==> workers[i].Done? && Delivered(c, segments[i])
    {
      var seg := Begin(i);
      err := AwaitResponse(i, seg, reply);
      ghost var sent := ranged;
      if err.Some? {
        log := Attempt(sent, seg, [Ask, Refuse(err.value)], err);
        return;
      }
      ghost var turns, offsets;
      err, turns, offsets := ReadBody(i, seg.current, reply.chunks);
      log := Attempt(sent, seg, [Ask, Accept] + Joined(turns), err);
    }

    /** Sends the request, and checks the status of the response. */
    method AwaitResponse(i: nat, seg: Segment, reply: Reply) returns (err: Option<Failure>)
      requires Valid() && i < |workers| == |segments| && workers[i].Asked?
      requires seg == segments[i] && workers[i].offset == seg.current
      modifies this
      ensures Valid() && old(history) <= history && i < |workers| == |segments| && segments[i] == seg
      ensures err.Some? <==> reply.Refused? || (ranged && seg.current >= Limit(c, seg))
      ensures err.Some? ==> err == Some(if reply == Refused(Canceled) && cancelled then Canceled else Faulty)
      ensures err.Some? ==> workers[i] == Failed(old(workers[i]).attempt, err.value)
      ensures err.None? ==> workers[i] == Reading(old(workers[i]).attempt, seg.current)
      ensures Own(i, history) == Own(i, old(history)) + [if err.Some? then Refuse(err.value) else Accept]
    {
      Yield(i);
      ghost var before := View();
      if reply.Refused? || (ranged && seg.current >= Limit(c, seg)) {
        err := Some(if reply == Refused(Canceled) && cancelled then Canceled else Faulty);
        workers := workers[i := Failed(workers[i].attempt, err.value)];
        Took(before, i, Refuse(err.value));
      } else {
        err := None;
        workers := workers[i := Reading(workers[i].attempt, seg.current)];
        Took(before, i, Accept);
      }
    }

    /** The read loop, over the chunks of a body. */
    method ReadBody(i: nat, start: int, chunks: seq<Chunk>)
      returns (err: Option<Failure>, ghost turns: seq<seq<WorkerEvent>>, ghost offsets: seq<int>)
      requires Valid() && i < |workers| == |segments| && workers[i].Reading? && workers[i].offset == start
      modifies this
      ensures Valid() && old(history) <= history && i < |workers| == |segments|
      ensures Own(i, history) == Own(i, old(history)) + Joined(turns)
      ensures TurnsOk(c, Limit(c, old(segments[i])), chunks, start, turns, offsets, true, err)
      ensures err.Some? ==> workers[i] == Failed(old(workers[i]).attempt, err.value)
      ensures err.None? ==> workers[i].Done? && Delivered(c, segments[i])
    {
      ghost var k, limit, past := workers[i].attempt, Limit(c, segments[i]), Own(i, history);
      var offset, j, ended := start, 0, false;
      turns, offsets, err := [], [start], None;
      while !ended
        invariant Valid() && old(history) <= history && i < |workers| == |segments| && Limit(c, segments[i]) == limit
        invariant BodySoFar(c, limit, chunks, start, turns, offsets, ended, err, past, Own(i, history))
        invariant |turns| == j && offsets[j] == offset && (!ended ==> j <= |chunks|)
        invariant Turned(i, k, offset, ended, err)
        decreases !ended, |chunks| - j
      {
        ghost var events, before, at := [], Own(i, history), offset;
        offset, ended, err, events := ReadOnce(i, offset, ChunkAt(chunks, j));
        BodyTurn(c, limit, chunks, start, turns, offsets, at, events, offset, ended, err, past, before, Own(i, history));
        turns, offsets := turns + [events], offsets + [offset];
        j := j + 1;
      }
    }

    /** After a failed attempt: the goroutine returns the error, or waits for its next attempt. */
    method Decide(i: nat, attempt: nat, why: Failure, timerFirst: bool) returns (err: Option<Failure>)
      requires Valid() && i < |workers| && workers[i] == Failed(attempt, why)
      modifies this
      ensures Valid() && old(history) <= history && i < |workers|
      ensures err.Some? ==> workers[i].Done?
      ensures err.None? ==> workers[i] == Asking(attempt + 1)
      ensures why == Canceled || attempt >= c.maxRetry ==> err == Some(why)
      ensures why != Canceled && attempt < c.maxRetry ==> err.None? || (err == Some(Canceled) && cancelled && !timerFirst)
      ensures Own(i, history) == Own(i, old(history)) + AfterFault(c, attempt, why, err)
    {
      Yield(i);
      if why == Canceled || attempt >= c.maxRetry {
        ReturnFault(i, attempt, why);
        return Some(why);
      }
      BackOff(i, attempt, why);
      err := Wait(i, attempt, timerFirst);
    }

    /** The goroutine is out of attempts. */
    ghost method ReturnFault(i: nat, attempt: nat, why: Failure)
      requires Valid() && Live(View(), i) && i < |segments| && workers[i] == Failed(attempt, why)
      requires why == Canceled || attempt >= c.maxRetry
      modifies `workers, `failure, `history
      ensures Valid() && old(history) <= history && i < |workers| && workers[i].Done?
      ensures Own(i, history) == Own(i, old(history)) + [Retry]
    {
      var before := View();
      GoroutineReturns(i, why);
      Took(before, i, Retry);
    }

    ghost method BackOff(i: nat, attempt: nat, why: Failure)
      requires Valid() && Live(View(), i) && i < |segments| && workers[i] == Failed(attempt, why)
      requires why != Canceled && attempt < c.maxRetry
      modifies `workers, `history
      ensures Valid() && old(history) <= history && i < |workers| && workers[i] == Backoff(attempt)
      ensures Own(i, history) == Own(i, old(history)) + [Retry]
    {
      var before := View();
      workers := workers[i := Backoff(attempt)];
      Took(before, i, Retry);
    }

    /** The select between the back-off timer and the context. */
    method Wait(i: nat, attempt: nat, timerFirst: bool) returns (err: Option<Failure>)
      requires Valid() && i < |workers| && workers[i] == Backoff(attempt)
      modifies this
      ensures Valid() && old(history) <= history && i < |workers|
      ensures err == if cancelled && !timerFirst then Some(Canceled) else None
      ensures if err.Some? then workers[i].Done? else workers[i] == Asking(attempt + 1)
      ensures Own(i, history) == Own(i, old(history)) + [if err.Some? then GiveUp else Wake]
    {
      Yield(i);
      ghost var before := View();
      if cancelled && !timerFirst {
        GoroutineReturns(i, Canceled);
        Took(before, i, GiveUp);
        return Some(Canceled);
      }
      workers := workers[i := Asking(attempt + 1)];
      Took(before, i, Wake);
      err := None;
    }

    /** One attempt and what follows it; `again` when there is another one. */
    method Round(i: nat, attempt: nat, reply: Reply, timerFirst: bool)
      returns (again: bool, err: Option<Failure>, ghost log: Attempt)
      requires Valid() && i < |workers| && workers[i] == Asking(attempt) && attempt <= c.maxRetry
      modifies this
      ensures Valid() && old(history) <= history && i < |workers|
      ensures AttemptOk(c, reply, log) && RoundOk(c, attempt, log.err, again, err)
      ensures Own(i, history) == Own(i, old(history)) + log.events + Aftermath(c, attempt, log.err, err)
      ensures if again then workers[i] == Asking(attempt + 1) else workers[i].Done?
      ensures !again && err.None? ==> i < |segments| && Delivered(c, segments[i])
      ensures log.err == Some(Faulty) && err == Some(Canceled) ==> cancelled && !timerFirst
    {
      err, log := FetchSegment(i, reply);
      if err.None? {
        return false, None, log;
      }
      err := Decide(i, attempt, err.value, timerFirst);
      again := err.None?;
    }

    /** `retryWithBackoff` around `fetchSegment`; `timers` says where the timer beats a cancellation.
        Also yields the milliseconds spent in completed back-offs; `log` lists the attempts. */
    method DownloadSegmentWithRetry(i: nat, replies: seq<Reply>, timers: seq<bool>)
      returns (err: Option<Failure>, waited: nat, ghost log: seq<Attempt>)
      requires Valid() && i < |workers| && workers[i] == Asking(0)
      modifies this
      ensures Valid() && old(history) <= history && i < |workers| && workers[i].Done?
      ensures LoopDone(c, replies, log, err, Own(i, old(history)), Own(i, history))
      ensures waited == 250 * ((|log| - 1) * |log|) <= 250 * (c.maxRetry * (c.maxRetry + 1))
      ensures err.None? ==> i < |segments| && Delivered(c, segments[i])
    {
      ghost var past := Own(i, history);
      err, waited, log := None, 0, [];
      var attempt: nat, again := 0, true;
      while again
        invariant Valid() && old(history) <= history && i < |workers|
        invariant attempt == |log| <= (if again then c.maxRetry else c.maxRetry + 1) && (again || 0 < attempt)
        invariant waited == BackoffTime(if again then attempt else attempt - 1)
        invariant again ==> workers[i] == Asking(attempt) && LoopSoFar(c, replies, log, past, Own(i, history))
        invariant !again ==> workers[i].Done? && LoopDone(c, replies, log, err, past, Own(i, history))
        invariant !again && err.None? ==> i < |segments| && Delivered(c, segments[i])
        decreases again, c.maxRetry - attempt
      {
        ghost var before := Own(i, history);
        ghost var last;
        again, err, last := Round(i, attempt, ReplyAt(replies, attempt), attempt < |timers| && timers[attempt]);
        LoopRound(c, replies, log, last, again, err, past, before, Own(i, history));
        log := log + [last];
        if again {
          waited := waited + (attempt + 1) * 500;
        }
        attempt := attempt + 1;
      }
      BackoffTotal(attempt - 1, c.maxRetry);
    }

    /** The goroutine keeps the first error of its mirror. */
    ghost method GoroutineReturns(i: nat, why: Failure)
      requires i < |workers|
      modifies `workers, `failure
      ensures View() == FinishFailed(old(View()), i, why)
    {
      workers := workers[i := Done];
      failure := if failure.None? then Some(why) else failure;
    }
  }

  /** The milliseconds of `k` back-offs. */
  function BackoffTime(k: nat): nat {
    if k == 0 then 0 else BackoffTime(k - 1) + k * 500
  }

  lemma {:induction false} BackoffIs(k: nat)
    ensures BackoffTime(k) == 250 * (k * (k + 1))
  {
    if k > 0 {
      BackoffIs(k - 1);
      assert k * (k + 1) == (k - 1) * k + 2 * k;
    }
  }

  lemma BackoffTotal(k: nat, maxRetry: nat)
    requires k <= maxRetry
    ensures BackoffTime(k) == 250 * (k * (k + 1)) <= 250 * (maxRetry * (maxRetry + 1))
  {
    BackoffIs(k);
    Product(k, maxRetry, k + 1, maxRetry + 1);
  }

  lemma Product(a: nat, b: nat, x: nat, y: nat)
    requires a <= b && x <= y
    ensures a * x <= b * y
  {
    assert b * y == a * x + (b - a) * x + b * (y - x);
    assert (b - a) * x >= 0 && b * (y - x) >= 0;
  }
}
