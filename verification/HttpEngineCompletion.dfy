/** Runs that complete: from a plan on disk, every goroutine gets the rest of its range in one read. */
module HttpEngineCompletion {
  import opened HttpEngine
  import opened HttpEngineTheorems
  import Runs
  import opened Segments
  import opened Wrappers

  // ---------------------------------------------------------------- making the plan

  /** What such a run leaves alone. */
  ghost predicate Framed(s: State, t: State) {
    t.ranged == s.ranged && t.total == s.total && t.cut == s.cut && t.ctl == s.ctl && s.saved <= t.saved
  }

  /** A first cycle against a server that ignores ranges, up to the plan on disk. */
  lemma PlansUnranged(c: Config, s: State, acts: seq<Action>, mid: State) returns (longer: seq<Action>, t: State)
    requires Run(c, s, acts) == Some(mid) && mid.runner.Starting? && mid.segments == [] && c.mirrors > 0
    ensures Run(c, s, longer) == Some(t) && t.runner == Mirror(0)
    ensures NoRestart(acts) ==> NoRestart(longer)
    ensures t.segments == [Segment(0, 0, -1)] && !t.ranged && SnapshotOf(t) in t.saved
    ensures t.file == mid.file && t.ctl == mid.ctl && t.cut == mid.cut
  {
    var plan := [Segment(0, 0, -1)];
    assert FreshSegments(c, -1, false, plan);
    longer, t := Runs.Take(Stepper(c), s, acts, mid, OfRunner(Mkdir(true)));
    longer, t := Runs.Take(Stepper(c), s, longer, t, OfRunner(ProbeReply(-1, false, plan)));
    longer, t := Runs.Take(Stepper(c), s, longer, t, OfRunner(SaveFirst(true)));
  }

  lemma SomeSplit(total: int, maxConn: int) returns (segs: seq<Segment>)
    requires total > 0
    ensures EvenSplit(segs, total, maxConn)
  {
    var n := SegmentCount(total, maxConn);
    segs := seq(n, i => Piece(total, n, i));
    PiecesSplitEvenly(segs, total, n);
  }

  /** A first cycle against a server that supports ranges and states the size. */
  lemma PlansRanged(c: Config, s: State, acts: seq<Action>, mid: State) returns (longer: seq<Action>, t: State)
    requires Run(c, s, acts) == Some(mid) && mid.runner.Starting? && mid.segments == [] && c.mirrors > 0 && c.payload != []
    ensures Run(c, s, longer) == Some(t) && t.runner == Mirror(0)
    ensures t.ranged && t.total == |c.payload| && EvenSplit(t.segments, |c.payload|, c.maxConn)
    ensures t.cut && t.ctl == mid.ctl && SnapshotOf(t) in t.saved
  {
    var segs := SomeSplit(|c.payload|, c.maxConn);
    assert FreshSegments(c, |c.payload|, true, segs);
    longer, t := Runs.Take(Stepper(c), s, acts, mid, OfRunner(Mkdir(true)));
    longer, t := Runs.Take(Stepper(c), s, longer, t, OfRunner(ProbeReply(|c.payload|, true, segs)));
    longer, t := Runs.Take(Stepper(c), s, longer, t, OfRunner(Allocate(true)));
    longer, t := Runs.Take(Stepper(c), s, longer, t, OfRunner(SaveFirst(true)));
  }

  // ---------------------------------------------------------------- carrying it out

  /** A server can still send what the segment needs. */
  ghost predicate Fetchable(c: Config, ranged: bool, seg: Segment) {
    && 0 <= seg.current <= Limit(c, seg) <= |c.payload|
    && (StillNeeded(seg) ==> ranged ==> seg.current < Limit(c, seg))
    && (!StillNeeded(seg) ==> seg.current == Limit(c, seg))
  }

  ghost predicate AllFetchable(c: Config, s: State) {
    s.segments != [] && forall i :: 0 <= i < |s.segments| ==> Fetchable(c, s.ranged, s.segments[i])
  }

  /** The first `k` goroutines of the plan of `from` have been looked at, and launched where they are needed. */
  ghost predicate Launched(c: Config, from: State, s: State, k: nat) {
    && AllFetchable(c, from) && Framed(from, s) && s.file == from.file && s.segments == from.segments
    && s.failure.None? && k <= |s.segments| == |s.workers|
    && forall i :: 0 <= i < |s.segments| ==>
         s.workers[i] == if i < k && StillNeeded(s.segments[i]) then Asking(0) else Idle
  }

  lemma LaunchesOne(c: Config, from: State, mid: State, u: nat, k: nat)
    requires Launched(c, from, mid, k) && mid.runner == Launching(u, k)
    ensures k < |from.segments| ==> Launched(c, from, LaunchStep(mid), k + 1) && LaunchStep(mid).runner == Launching(u, k + 1)
    ensures k == |from.segments| ==> Launched(c, from, LaunchStep(mid), k) && LaunchStep(mid).runner == Waiting(u)
  {
  }

  lemma {:induction false} LaunchesAll(c: Config, s: State, from: State, u: nat, k: nat, acts: seq<Action>, mid: State)
    returns (longer: seq<Action>, t: State)
    requires Run(c, s, acts) == Some(mid) && Launched(c, from, mid, k) && mid.runner == Launching(u, k)
    ensures Run(c, s, longer) == Some(t) && Launched(c, from, t, |from.segments|) && t.runner == Waiting(u)
    ensures NoRestart(acts) ==> NoRestart(longer)
    decreases |from.segments| - k
  {
    LaunchesOne(c, from, mid, u, k);
    longer, t := Runs.Take(Stepper(c), s, acts, mid, OfRunner(Launch));
    if k < |from.segments| {
      longer, t := LaunchesAll(c, s, from, u, k + 1, longer, t);
    }
  }

  predicate NothingNeeded(segs: seq<Segment>) {
    forall i :: 0 <= i < |segs| ==> !StillNeeded(segs[i])
  }

  predicate AllNeeded(segs: seq<Segment>) {
    forall i :: 0 <= i < |segs| ==> StillNeeded(segs[i])
  }

  /** The first `k` segments are complete, and the goroutines of the others wait to ask. */
  ghost predicate Fetched(c: Config, from: State, s: State, u: nat, k: nat) {
    && AllFetchable(c, from) && Framed(from, s) && s.runner == Waiting(u) && s.failure.None?
    && k <= |from.segments| == |s.segments| == |s.workers|
    && (forall i :: 0 <= i < k ==>
          (s.workers[i].Done? || s.workers[i].Idle?) && s.segments[i] == from.segments[i].(current := Limit(c, from.segments[i])))
    && (forall i :: k <= i < |s.segments| ==>
          s.segments[i] == from.segments[i] && s.workers[i] == if StillNeeded(s.segments[i]) then Asking(0) else Idle)
    && (NothingNeeded(from.segments) ==> s.file == from.file)
    && (0 < k && s.ranged && AllNeeded(from.segments) ==> SnapshotOf(s) in s.saved)
  }

  /** Goroutine `k` gets what is left of its range in one read. */
  lemma FetchesOne(c: Config, s: State, from: State, u: nat, k: nat, acts: seq<Action>, mid: State)
    returns (longer: seq<Action>, t: State)
    requires Run(c, s, acts) == Some(mid) && Fetched(c, from, mid, u, k) && k < |from.segments|
    ensures Run(c, s, longer) == Some(t) && Fetched(c, from, t, u, k + 1)
    ensures NoRestart(acts) ==> NoRestart(longer)
  {
    longer, t := acts, mid;
    var seg := mid.segments[k];
    assert Fetchable(c, mid.ranged, from.segments[k]);
    if StillNeeded(seg) {
      longer, t := OpensRange(c, s, k, acts, mid);
      longer, t := StoresRest(c, s, k, longer, t, Limit(c, seg) - t.segments[k].current);
    }
  }

  /** The request of goroutine `k` is answered. */
  lemma OpensRange(c: Config, s: State, k: nat, acts: seq<Action>, mid: State) returns (longer: seq<Action>, t: State)
    requires Run(c, s, acts) == Some(mid) && k < |mid.workers| == |mid.segments| && mid.workers[k] == Asking(0)
    requires Fetchable(c, mid.ranged, mid.segments[k]) && StillNeeded(mid.segments[k])
    ensures Run(c, s, longer) == Some(t) && Framed(mid, t) && t.failure == mid.failure && t.runner == mid.runner
    ensures |t.workers| == |t.segments| == |mid.segments|
    ensures t.segments[k] == if mid.ranged then mid.segments[k] else mid.segments[k].(current := 0)
    ensures t.workers[k] == Reading(0, t.segments[k].current)
    ensures forall i :: 0 <= i < |t.segments| && i != k ==> t.workers[i] == mid.workers[i] && t.segments[i] == mid.segments[i]
    ensures NoRestart(acts) ==> NoRestart(longer)
  {
    longer, t := Runs.Take(Stepper(c), s, acts, mid, OfWorker(k, Ask));
    longer, t := Runs.Take(Stepper(c), s, longer, t, OfWorker(k, Accept));
  }

  /** One read up to the limit of segment `k`, and what follows it. */
  lemma StoresRest(c: Config, s: State, k: nat, acts: seq<Action>, mid: State, n: nat)
    returns (longer: seq<Action>, t: State)
    requires Run(c, s, acts) == Some(mid) && k < |mid.workers| == |mid.segments|
    requires mid.workers[k] == Reading(0, mid.segments[k].current) && 0 <= mid.segments[k].current
    requires mid.segments[k].current + n == Limit(c, mid.segments[k]) <= |c.payload|
    ensures Run(c, s, longer) == Some(t) && Framed(mid, t) && t.failure == mid.failure && t.runner == mid.runner
    ensures |t.workers| == |t.segments| == |mid.segments| && t.workers[k].Done?
    ensures t.segments[k] == mid.segments[k].(current := Limit(c, mid.segments[k]))
    ensures forall i :: 0 <= i < |t.segments| && i != k ==> t.workers[i] == mid.workers[i] && t.segments[i] == mid.segments[i]
    ensures n > 0 ==> SnapshotOf(t) in t.saved
    ensures NoRestart(acts) ==> NoRestart(longer)
  {
    longer, t := Runs.Take(Stepper(c), s, acts, mid, OfWorker(k, Read(n, Eof)));
    if n > 0 {
      assert t.workers == mid.workers[k := Wrote(0, mid.segments[k].current, n, Eof)];
      longer, t := FilesChunk(c, s, k, longer, t);
    } else {
      longer, t := Runs.Take(Stepper(c), s, longer, t, OfWorker(k, Check));
    }
  }

  /** The bookkeeping after the last read of a range. */
  lemma FilesChunk(c: Config, s: State, k: nat, acts: seq<Action>, mid: State)
    returns (longer: seq<Action>, t: State)
    requires Run(c, s, acts) == Some(mid) && k < |mid.workers| == |mid.segments|
    requires mid.workers[k].Wrote? && mid.workers[k].after.Eof?
    ensures Run(c, s, longer) == Some(t) && Framed(mid, t) && t.failure == mid.failure && t.runner == mid.runner
    ensures |t.workers| == |t.segments| == |mid.segments| && t.workers[k].Done?
    ensures t.segments == mid.segments[k := mid.segments[k].(current := mid.workers[k].offset + mid.workers[k].n)]
    ensures forall i :: 0 <= i < |t.segments| && i != k ==> t.workers[i] == mid.workers[i]
    ensures SnapshotOf(t) in t.saved && t.file == mid.file
    ensures NoRestart(acts) ==> NoRestart(longer)
  {
    longer, t := Runs.Take(Stepper(c), s, acts, mid, OfWorker(k, Count));
    longer, t := Runs.Take(Stepper(c), s, longer, t, OfWorker(k, Publish));
    longer, t := SavesChunk(c, s, k, longer, t);
  }

  lemma SavesChunk(c: Config, s: State, k: nat, acts: seq<Action>, mid: State)
    returns (longer: seq<Action>, t: State)
    requires Run(c, s, acts) == Some(mid) && k < |mid.workers| == |mid.segments|
    requires mid.workers[k].Published? && mid.workers[k].after.Eof? && mid.workers[k].snap == SnapshotOf(mid)
    ensures Run(c, s, longer) == Some(t)
    ensures t == mid.(workers := mid.workers[k := Done], saved := mid.saved + {SnapshotOf(mid)})
    ensures NoRestart(acts) ==> NoRestart(longer)
  {
    longer, t := Runs.Take(Stepper(c), s, acts, mid, OfWorker(k, Save(true)));
    longer, t := Runs.Take(Stepper(c), s, longer, t, OfWorker(k, Check));
    assert t.workers == mid.workers[k := Done];
  }

  lemma {:induction false} FetchesRest(c: Config, s: State, from: State, u: nat, k: nat, acts: seq<Action>, mid: State)
    returns (longer: seq<Action>, t: State)
    requires Run(c, s, acts) == Some(mid) && Fetched(c, from, mid, u, k)
    ensures Run(c, s, longer) == Some(t) && Fetched(c, from, t, u, |from.segments|)
    ensures NoRestart(acts) ==> NoRestart(longer)
    decreases |from.segments| - k
  {
    longer, t := acts, mid;
    if k < |from.segments| {
      longer, t := FetchesOne(c, s, from, u, k, acts, mid);
      longer, t := FetchesRest(c, s, from, u, k + 1, longer, t);
    }
  }

  /** A mirror that answers everything is tried: all segments reach their limits. */
  lemma Fetches(c: Config, s: State, acts: seq<Action>, mid: State) returns (longer: seq<Action>, t: State)
    requires Run(c, s, acts) == Some(mid) && mid.runner.Mirror? && AllFetchable(c, mid)
    ensures Run(c, s, longer) == Some(t) && Fetched(c, mid, t, mid.runner.url, |mid.segments|)
    ensures NoRestart(acts) ==> NoRestart(longer)
  {
    longer, t := Runs.Take(Stepper(c), s, acts, mid, OfRunner(Open(true)));
    longer, t := LaunchesAll(c, s, mid, mid.runner.url, 0, longer, t);
    longer, t := FetchesRest(c, s, mid, mid.runner.url, 0, longer, t);
  }

  /** All goroutines have returned without an error: the task becomes Complete. */
  lemma Concludes(c: Config, s: State, acts: seq<Action>, mid: State) returns (longer: seq<Action>, t: State)
    requires Run(c, s, acts) == Some(mid) && mid.runner.Waiting? && mid.failure.None? && AllReturned(mid)
    ensures Run(c, s, longer) == Some(t) && t.status.Complete?
    ensures t.file == mid.file && t.segments == mid.segments && Framed(mid, t)
    ensures NoRestart(acts) ==> NoRestart(longer)
  {
    longer, t := Runs.Take(Stepper(c), s, acts, mid, OfRunner(Join));
    longer, t := Runs.Take(Stepper(c), s, longer, t, OfRunner(Verify(true)));
  }

  lemma Completes(c: Config, s: State, acts: seq<Action>, mid: State) returns (longer: seq<Action>, t: State)
    requires Run(c, s, acts) == Some(mid) && mid.runner.Mirror? && AllFetchable(c, mid)
    ensures Run(c, s, longer) == Some(t) && t.status.Complete? && |t.segments| == |mid.segments| && Framed(mid, t)
    ensures NothingNeeded(mid.segments) ==> t.file == mid.file
    ensures NoRestart(acts) ==> NoRestart(longer)
  {
    longer, t := Fetches(c, s, acts, mid);
    longer, t := Concludes(c, s, longer, t);
  }

  /** A fresh plan can be carried out. */
  lemma FreshIsFetchable(c: Config, s: State)
    requires if s.ranged then EvenSplit(s.segments, |c.payload|, c.maxConn) else s.segments == [Segment(0, 0, -1)]
    ensures AllFetchable(c, s) && AllNeeded(s.segments)
  {
    if s.ranged {
      forall i | 0 <= i < |s.segments| ensures Fetchable(c, true, s.segments[i]) {
        if i < |s.segments| - 1 {
          SegmentsAscend(s.segments, |c.payload|, i, |s.segments| - 1);
        }
      }
    }
  }

  // ---------------------------------------------------------------- first cycles

  /** The first Resume of a Task, up to its runner. */
  lemma StartsFirst(c: Config, s: State) returns (acts: seq<Action>, t: State)
    requires s == New(c, s, None) && c.callers >= 1
    ensures Run(c, s, acts) == Some(t) && t.runner.Starting? && t.segments == [] && NoRestart(acts)
    ensures t.file == s.file && t.cut == s.cut && t.ctl == s.ctl && t.status.Active?
  {
    acts, t := Runs.Take(Stepper(c), s, [], s, OfCaller(0, Resume));
    acts, t := Runs.Take(Stepper(c), s, acts, t, OfCaller(0, Spawn));
    assert t.ctl == s.ctl;
  }

  /** Delivery is not promised in vain: whatever the payload and whatever lies at the destination, some run completes;
      the file is not cut in it, so a longer stale file leaves its tail. */
  lemma SomeRunDelivers(c: Config) returns (acts: seq<Action>, t: State)
    requires Serialised(c) && !c.shortEof && !c.orphans
    ensures Reaches(c, acts, t) && t.status.Complete? && !t.cut && t.file == c.payload + StaleTail(c, t)
  {
    var s := Init(c);
    acts, t := StartsFirst(c, s);
    acts, t := PlansUnranged(c, s, acts, t);
    FreshIsFetchable(c, t);
    acts, t := Completes(c, s, acts, t);
    CompleteDelivers(c, acts, t);
  }

  /** For every payload some run downloads it in as many ranges as the plan allows, and leaves exactly the payload. */
  lemma SomeRangedRunDelivers(c: Config) returns (acts: seq<Action>, t: State)
    requires Serialised(c) && !c.shortEof && !c.orphans && c.payload != []
    ensures Reaches(c, acts, t) && t.status.Complete? && t.ranged && t.file == c.payload
    ensures |t.segments| == SegmentCount(|c.payload|, c.maxConn)
  {
    var s := Init(c);
    acts, t := StartsFirst(c, s);
    acts, t := PlansRanged(c, s, acts, t);
    FreshIsFetchable(c, t);
    acts, t := Completes(c, s, acts, t);
    CompleteIsExact(c, acts, t);
  }
}
