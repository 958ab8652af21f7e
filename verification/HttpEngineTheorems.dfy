/** What the download machine delivers over whole runs. */
module HttpEngineTheorems {
  import opened HttpEngine
  import opened HttpEngineSafety
  import Runs
  import opened Segments
  import opened Wrappers

  ghost predicate Reaches(c: Config, acts: seq<Action>, s: State) {
    Run(c, Init(c), acts) == Some(s)
  }

  predicate NoRestart(acts: seq<Action>) {
    forall i :: 0 <= i < |acts| ==> !acts[i].Restart?
  }

  /** The program is set up as the source sets it up: at least one URL, one control call at a time. */
  ghost predicate Serialised(c: Config) {
    c.mirrors > 0 && c.callers == 1
  }

  lemma ReachableIsSafe(c: Config, acts: seq<Action>, s: State)
    requires Serialised(c) && Reaches(c, acts, s)
    ensures Inv(c, s)
  {
    InitIsSafe(c);
    RunKeeps(c, Init(c), acts, s);
  }

  // ---------------------------------------------------------------- end-to-end delivery

  lemma {:induction false} CoveredUpTo(c: Config, file: seq<byte>, segs: seq<Segment>, last: nat)
    requires Contiguous(segs, |c.payload|) && last < |segs|
    requires forall i :: 0 <= i < |segs| ==> InPlace(c, file, segs[i].start, segs[i].end + 1)
    ensures InPlace(c, file, 0, segs[last].end + 1)
  {
    assert InPlace(c, file, segs[last].start, segs[last].end + 1);
    if last > 0 {
      CoveredUpTo(c, file, segs, last - 1);
    }
  }

  ghost predicate AllLanded(c: Config, s: State) {
    && (s.segments == [] || Layout(c, s.total, s.ranged, s.segments))
    && Landed(c, s.file, s.segments)
  }

  /** Segments that have all reached their limit cover the payload. */
  lemma LimitsCoverPayload(c: Config, s: State)
    requires s.segments != [] && AllLanded(c, s) && !c.orphans
    requires forall i :: 0 <= i < |s.segments| ==> s.segments[i].current == Limit(c, s.segments[i])
    ensures c.payload <= s.file
  {
    forall i | 0 <= i < |s.segments| ensures InPlace(c, s.file, s.segments[i].start, Limit(c, s.segments[i])) {
      assert Matches(c, s.file, s.segments[i].start, s.segments[i].current);
    }
    if Bounded(s.total, s.ranged) {
      CoveredUpTo(c, s.file, s.segments, |s.segments| - 1);
    }
    assert InPlace(c, s.file, 0, |c.payload|);
  }

  /** What is left of the stale contents once the payload is in place. */
  function StaleTail(c: Config, s: State): seq<byte> {
    if s.cut || |c.stale| <= |c.payload| then [] else c.stale[|c.payload|..]
  }

  /** Whatever the schedule of chunks, errors, mirrors, pauses and restarts: a Complete task has the payload on disk. */
  lemma CompleteDelivers(c: Config, acts: seq<Action>, s: State)
    requires Serialised(c) && !c.shortEof && !c.orphans
    requires Reaches(c, acts, s) && s.status.Complete?
    ensures s.file == c.payload + StaleTail(c, s)
  {
    ReachableIsSafe(c, acts, s);
    forall i | 0 <= i < |s.segments| ensures s.segments[i].current == Limit(c, s.segments[i]) {
      assert Delivered(c, s.segments[i]);
    }
    LimitsCoverPayload(c, s);
  }

  /** The file is exactly the payload just when no longer stale file was in the way, or it was cut. */
  lemma CompleteIsExact(c: Config, acts: seq<Action>, s: State)
    requires Serialised(c) && !c.shortEof && !c.orphans
    requires Reaches(c, acts, s) && s.status.Complete?
    ensures s.file == c.payload <==> s.cut || |c.stale| <= |c.payload|
  {
    CompleteDelivers(c, acts, s);
    assert |s.file| == |c.payload| + |StaleTail(c, s)|;
  }

  /** What a snapshot says has arrived is on disk. */
  ghost predicate Backed(c: Config, file: seq<byte>, snap: Snapshot) {
    && Layout(c, snap.total, snap.ranged, snap.segments)
    && forall i :: 0 <= i < |snap.segments| ==> InPlace(c, file, snap.segments[i].start, snap.segments[i].current)
  }

  /** Every snapshot ever written stays sound, and a restart from any of them still delivers. */
  lemma SnapshotsStaySound(c: Config, acts: seq<Action>, s: State, snap: Snapshot, more: seq<Action>, t: State)
    requires Serialised(c) && !c.orphans && Reaches(c, acts, s) && snap in s.saved
    requires Run(c, New(c, s, Some(snap)), more) == Some(t)
    ensures Backed(c, s.file, snap)
    ensures !c.shortEof && t.status.Complete? ==> t.file == c.payload + StaleTail(c, t)
  {
    ReachableIsSafe(c, acts, s);
    forall i | 0 <= i < |snap.segments| ensures InPlace(c, s.file, snap.segments[i].start, snap.segments[i].current) {
      assert Sound(c, s.file, snap);
      assert Matches(c, s.file, snap.segments[i].start, snap.segments[i].current);
    }
    var restart := [Restart(Some(snap))] + more;
    assert restart[1..] == more;
    Runs.Concat(Stepper(c), Init(c), acts, s, restart);
    if !c.shortEof && t.status.Complete? {
      CompleteDelivers(c, acts + restart, t);
    }
  }
}
