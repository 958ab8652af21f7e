/** Conservation: the byte counter against the segment offsets. */
module HttpEngineLedger {
  import opened HttpEngine
  import opened HttpEngineSafety
  import opened HttpEngineTheorems
  import opened Segments
  import opened Wrappers

  /** Bytes a worker has added to the counter but not yet to its segment. */
  function InFlight(w: Worker): int {
    if w.Counted? then w.n else 0
  }

  /** Bytes all segments have received, published or in flight. */
  ghost function Received(segs: seq<Segment>, workers: seq<Worker>): int
    requires |segs| == |workers|
  {
    if segs == [] then 0
    else segs[0].current - segs[0].start + InFlight(workers[0]) + Received(segs[1..], workers[1..])
  }

  ghost predicate Balanced(s: State) {
    |s.segments| == |s.workers| && s.downloaded == Received(s.segments, s.workers)
  }

  lemma {:induction false} ReceivedUpdate(segs: seq<Segment>, workers: seq<Worker>, i: nat, seg: Segment, w: Worker)
    requires i < |segs| == |workers| && seg.start == segs[i].start
    ensures Received(segs[i := seg], workers[i := w])
         == Received(segs, workers) + seg.current - segs[i].current + InFlight(w) - InFlight(workers[i])
  {
    if i == 0 {
      assert segs[0 := seg][1..] == segs[1..] && workers[0 := w][1..] == workers[1..];
    } else {
      assert segs[i := seg][1..] == segs[1..][i - 1 := seg];
      assert workers[i := w][1..] == workers[1..][i - 1 := w];
      ReceivedUpdate(segs[1..], workers[1..], i - 1, seg, w);
    }
  }

  lemma {:induction false} ReceivedAtRest(segs: seq<Segment>, workers: seq<Worker>)
    requires |segs| == |workers| && forall i :: 0 <= i < |workers| ==> !workers[i].Counted?
    ensures Received(segs, workers) == Progress(segs)
  {
    if segs != [] {
      assert forall i :: 0 <= i < |workers| - 1 ==> workers[1..][i] == workers[i + 1];
      ReceivedAtRest(segs[1..], workers[1..]);
    }
  }

  lemma FreshProgress(c: Config, total: int, ranged: bool, segs: seq<Segment>)
    requires FreshSegments(c, total, ranged, segs)
    ensures Progress(segs) == 0
  {
    ZeroProgress(segs);
  }

  lemma {:induction false} ZeroProgress(segs: seq<Segment>)
    requires forall i :: 0 <= i < |segs| ==> segs[i].current == segs[i].start
    ensures Progress(segs) == 0
  {
    if segs != [] {
      assert forall i :: 0 <= i < |segs| - 1 ==> segs[1..][i] == segs[i + 1];
      ZeroProgress(segs[1..]);
    }
  }

  // ---------------------------------------------------------------- every step keeps the books

  lemma AskBalances(c: Config, s: State, i: nat)
    requires LocalOk(c, s, i) && s.workers[i].Asking? && Balanced(s)
    requires s.ranged || |s.segments| == 1
    ensures Balanced(AskStep(s, i))
  {
    var t := AskStep(s, i);
    ReceivedUpdate(s.segments, s.workers, i, t.segments[i], t.workers[i]);
    assert t.workers == s.workers[i := t.workers[i]];
    assert t.segments == s.segments[i := t.segments[i]];
    if !s.ranged {
      assert t.segments[1..] == [] && t.workers[1..] == [];
    }
  }

  lemma CountBalances(s: State, i: nat)
    requires Balanced(s) && i < |s.workers| && s.workers[i].Wrote?
    ensures Balanced(CountStep(s, i))
  {
    var t := CountStep(s, i);
    ReceivedUpdate(s.segments, s.workers, i, s.segments[i], t.workers[i]);
    assert s.segments == s.segments[i := s.segments[i]];
  }

  lemma PublishBalances(c: Config, s: State, i: nat)
    requires LocalOk(c, s, i) && s.workers[i].Counted? && Balanced(s)
    ensures Balanced(PublishStep(s, i))
  {
    var t := PublishStep(s, i);
    ReceivedUpdate(s.segments, s.workers, i, t.segments[i], t.workers[i]);
  }

  lemma QuietSwapBalances(s: State, t: State, i: nat)
    requires Balanced(s) && i < |s.workers| && |t.workers| == |s.workers|
    requires t.segments == s.segments && t.downloaded == s.downloaded && t.workers == s.workers[i := t.workers[i]]
    requires !t.workers[i].Counted? && !s.workers[i].Counted?
    ensures Balanced(t)
  {
    ReceivedUpdate(s.segments, s.workers, i, s.segments[i], t.workers[i]);
    assert s.segments == s.segments[i := s.segments[i]];
  }

  /** Steps that count nothing and publish nothing: of the request, */
  lemma RequestBalances(c: Config, s: State, i: nat, e: WorkerEvent, t: State)
    requires Balanced(s) && WorkerStep(c, s, i, e) == Some(t)
    requires e.Accept? || e.Refuse? || e.Read? || e.WriteFault?
    ensures Balanced(t)
  {
    QuietSwapBalances(s, t, i);
  }

  /** and of the aftermath of a chunk. */
  lemma AftermathBalances(c: Config, s: State, i: nat, e: WorkerEvent, t: State)
    requires Balanced(s) && WorkerStep(c, s, i, e) == Some(t)
    requires e.Save? || e.Check? || e.Retry? || e.Wake? || e.GiveUp?
    ensures Balanced(t)
  {
    QuietSwapBalances(s, t, i);
  }

  lemma WorkerBalances(c: Config, s: State, i: nat, e: WorkerEvent, t: State)
    requires Inv(c, s) && Balanced(s) && WorkerStep(c, s, i, e) == Some(t)
    ensures Balanced(t)
  {
    InvIsLocal(c, s, i);
    match e {
      case Ask => AskBalances(c, s, i);
      case Count => CountBalances(s, i);
      case Publish => PublishBalances(c, s, i);
      case Save(_) => AftermathBalances(c, s, i, e, t);
      case Check => AftermathBalances(c, s, i, e, t);
      case Retry => AftermathBalances(c, s, i, e, t);
      case Wake => AftermathBalances(c, s, i, e, t);
      case GiveUp => AftermathBalances(c, s, i, e, t);
      case _ => RequestBalances(c, s, i, e, t);
    }
  }

  lemma PlanBalances(c: Config, s: State, e: RunnerEvent, t: State)
    requires Inv(c, s) && Balanced(s) && RunnerStep(c, s, e) == Some(t) && e.ProbeReply?
    ensures Balanced(t)
  {
    assert s.segments == [];
    FreshProgress(c, e.total, e.ranged, e.segs);
    ReceivedAtRest(t.segments, t.workers);
  }

  lemma LaunchBalances(s: State)
    requires Balanced(s) && s.runner.Launching? && LaunchedUpTo(s, s.runner.next)
    ensures Balanced(LaunchStep(s))
  {
    var t, next := LaunchStep(s), s.runner.next;
    if next < |s.workers| && StillNeeded(s.segments[next]) {
      QuietSwapBalances(s, t, next);
    }
  }

  lemma ResetBalances(c: Config, s: State, t: State)
    requires Balanced(s) && (forall i :: 0 <= i < |s.workers| ==> !s.workers[i].Counted?)
    requires t.segments == s.segments && t.downloaded == s.downloaded && t.workers == AllIdle(|s.segments|)
    ensures Balanced(t)
  {
    ReceivedAtRest(s.segments, s.workers);
    ReceivedAtRest(t.segments, t.workers);
  }

  lemma OpenBalances(c: Config, s: State, ok: bool, t: State)
    requires Inv(c, s) && Balanced(s) && RunnerStep(c, s, Open(ok)) == Some(t)
    ensures Balanced(t)
  {
    if ok {
      ResetBalances(c, s, t);
    }
  }

  lemma JoinBalances(c: Config, s: State)
    requires Balanced(s) && s.runner.Waiting? && AllReturned(s)
    ensures Balanced(JoinStep(c, s))
  {
    ResetBalances(c, s, JoinStep(c, s));
  }

  lemma RunnerBalances(c: Config, s: State, e: RunnerEvent, t: State)
    requires Inv(c, s) && Balanced(s) && RunnerStep(c, s, e) == Some(t)
    ensures Balanced(t)
  {
    match e {
      case ProbeReply(_, _, _) => PlanBalances(c, s, e, t);
      case Launch => LaunchBalances(s);
      case Join => JoinBalances(c, s);
      case Open(ok) => OpenBalances(c, s, ok, t);
      case _ => CourseBalances(c, s, e, t);
    }
  }

  lemma CourseBalances(c: Config, s: State, e: RunnerEvent, t: State)
    requires Balanced(s) && RunnerStep(c, s, e) == Some(t)
    requires !e.ProbeReply? && !e.Launch? && !e.Join? && !e.Open?
    ensures Balanced(t)
  {
  }

  lemma StepBalances(c: Config, s: State, a: Action, t: State)
    requires Inv(c, s) && Balanced(s) && Step(c, s, a) == Some(t)
    ensures Balanced(t)
  {
    match a {
      case OfWorker(i, e) => WorkerBalances(c, s, i, e, t);
      case OfRunner(e) => RunnerBalances(c, s, e, t);
      case OfCaller(k, e) => CallerBalances(c, s, k, e, t);
      case Restart(from) => ReceivedAtRest(New(c, s, from).segments, New(c, s, from).workers);
    }
  }

  lemma CallerBalances(c: Config, s: State, k: nat, e: CallEvent, t: State)
    requires Balanced(s) && CallerStep(c, s, k, e) == Some(t)
    ensures Balanced(t)
  {
  }

  lemma {:induction false} RunBalances(c: Config, s: State, acts: seq<Action>, t: State)
    requires Inv(c, s) && Balanced(s) && Run(c, s, acts) == Some(t)
    ensures Inv(c, t) && Balanced(t)
    decreases |acts|
  {
    if acts != [] {
      var mid := Step(c, s, acts[0]).value;
      StepKeeps(c, s, acts[0], mid);
      StepBalances(c, s, acts[0], mid);
      RunBalances(c, mid, acts[1..], t);
    }
  }

  // ---------------------------------------------------------------- what the counter says

  /** The most a list of segments can have received. */
  function Capacity(c: Config, segs: seq<Segment>): int {
    if segs == [] then 0 else Limit(c, segs[0]) - segs[0].start + Capacity(c, segs[1..])
  }

  lemma {:induction false} CapacityIsSpan(c: Config, segs: seq<Segment>)
    requires |segs| > 0 && forall i :: 0 <= i < |segs| ==> 0 <= segs[i].start <= segs[i].end
    requires forall i :: 0 < i < |segs| ==> segs[i].start == segs[i - 1].end + 1
    ensures Capacity(c, segs) == segs[|segs| - 1].end + 1 - segs[0].start
  {
    if |segs| > 1 {
      assert segs[1..][|segs| - 2] == segs[|segs| - 1];
      CapacityIsSpan(c, segs[1..]);
    } else {
      assert segs[1..] == [];
    }
  }

  ghost predicate Within(c: Config, seg: Segment, w: Worker) {
    seg.start <= seg.current + InFlight(w) <= Limit(c, seg)
  }

  lemma {:induction false} ReceivedWithinCapacity(c: Config, segs: seq<Segment>, workers: seq<Worker>)
    requires |segs| == |workers| && forall i :: 0 <= i < |segs| ==> Within(c, segs[i], workers[i])
    ensures 0 <= Received(segs, workers) <= Capacity(c, segs)
    ensures Received(segs, workers) == Capacity(c, segs)
       <==> forall i :: 0 <= i < |segs| ==> segs[i].current + InFlight(workers[i]) == Limit(c, segs[i])
  {
    if segs != [] {
      forall i | 0 <= i < |segs| - 1 ensures Within(c, segs[1..][i], workers[1..][i]) {
        assert Within(c, segs[i + 1], workers[i + 1]);
      }
      ReceivedWithinCapacity(c, segs[1..], workers[1..]);
      assert forall i :: 0 < i < |segs| ==> segs[1..][i - 1] == segs[i] && workers[1..][i - 1] == workers[i];
      assert Within(c, segs[0], workers[0]);
    }
  }

  lemma PlanHasPayloadCapacity(c: Config, s: State)
    requires s.segments != [] && Layout(c, s.total, s.ranged, s.segments)
    ensures Capacity(c, s.segments) == |c.payload|
  {
    if Bounded(s.total, s.ranged) {
      CapacityIsSpan(c, s.segments);
    } else {
      assert s.segments[1..] == [];
    }
  }

  lemma AllWithin(c: Config, s: State)
    requires Inv(c, s)
    ensures forall i :: 0 <= i < |s.segments| ==> Within(c, s.segments[i], s.workers[i])
  {
    forall i | 0 <= i < |s.segments| ensures Within(c, s.segments[i], s.workers[i]) {
      assert WorkerOk(c, s.file, s.failure, s.cancelled, s.segments[i], s.workers[i]);
    }
  }

  /** At every interleaving the counter is what the segments have received, and never more than the payload. */
  lemma CounterIsConserved(c: Config, acts: seq<Action>, s: State)
    requires Serialised(c) && Reaches(c, acts, s)
    ensures Balanced(s)
    ensures 0 <= s.downloaded <= |c.payload|
    ensures !c.shortEof && s.status.Complete? ==> s.downloaded == |c.payload|
  {
    InitIsSafe(c);
    RunBalances(c, Init(c), acts, s);
    AllWithin(c, s);
    ReceivedWithinCapacity(c, s.segments, s.workers);
    if s.segments != [] {
      PlanHasPayloadCapacity(c, s);
    }
    if !c.shortEof && s.status.Complete? {
      assert forall i :: 0 <= i < |s.segments| ==> Delivered(c, s.segments[i]);
    }
  }

  /** Even against servers that end bodies early, a counter that reached the payload size proves the file. */
  lemma FullCounterProvesDelivery(c: Config, acts: seq<Action>, s: State)
    requires Serialised(c) && Reaches(c, acts, s) && s.status.Complete?
    ensures s.downloaded == |c.payload| <==> forall seg :: seg in s.segments ==> seg.current == Limit(c, seg)
    ensures s.downloaded == |c.payload| && !c.orphans ==> c.payload <= s.file
  {
    InitIsSafe(c);
    RunBalances(c, Init(c), acts, s);
    AllWithin(c, s);
    ReceivedWithinCapacity(c, s.segments, s.workers);
    PlanHasPayloadCapacity(c, s);
    assert NoWorker(s);
    if s.downloaded == |c.payload| && !c.orphans {
      LimitsCoverPayload(c, s);
    }
  }
}
