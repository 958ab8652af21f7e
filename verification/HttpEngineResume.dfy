/** A ranged download never goes back: what has arrived is not asked for again, in this Task or in one loaded later. */
module HttpEngineResume {
  import opened HttpEngine
  import opened HttpEngineSafety
  import opened HttpEngineTheorems
  import opened Segments
  import opened Wrappers

  /** The download follows `plan` and is nowhere behind it. */
  ghost predicate Onward(s: State, plan: seq<Segment>) {
    && s.ranged && plan != [] && |s.segments| == |plan|
    && forall i :: 0 <= i < |plan| ==>
         s.segments[i].start == plan[i].start && s.segments[i].end == plan[i].end && plan[i].current <= s.segments[i].current
  }

  lemma OnwardWorker(c: Config, s: State, i: nat, e: WorkerEvent, t: State, plan: seq<Segment>)
    requires Onward(s, plan) && WorkerStep(c, s, i, e) == Some(t)
    requires s.workers[i].Counted? ==> s.segments[i].current <= s.workers[i].offset + s.workers[i].n
    ensures Onward(t, plan) && t.probes == s.probes
  {
  }

  lemma OnwardRunner(c: Config, s: State, e: RunnerEvent, t: State, plan: seq<Segment>)
    requires Onward(s, plan) && RunnerStep(c, s, e) == Some(t) && !s.runner.Probing? && !s.runner.ProbeBackoff?
    ensures Onward(t, plan) && t.probes == s.probes
  {
  }

  lemma OnwardCall(c: Config, s: State, k: nat, e: CallEvent, t: State, plan: seq<Segment>)
    requires Onward(s, plan) && CallerStep(c, s, k, e) == Some(t)
    ensures Onward(t, plan) && t.probes <= s.probes
  {
  }

  lemma OnwardStep(c: Config, s: State, a: Action, t: State, plan: seq<Segment>)
    requires Inv(c, s) && Onward(s, plan) && Step(c, s, a) == Some(t) && !a.Restart?
    ensures Onward(t, plan) && t.probes <= s.probes
  {
    match a
    case OfWorker(i, e) =>
      assert WorkerOk(c, s.file, s.failure, s.cancelled, s.segments[i], s.workers[i]);
      OnwardWorker(c, s, i, e, t, plan);
    case OfRunner(e) => OnwardRunner(c, s, e, t, plan);
    case OfCaller(k, e) => OnwardCall(c, s, k, e, t, plan);
  }

  lemma {:induction false} OnwardRun(c: Config, s: State, acts: seq<Action>, t: State, plan: seq<Segment>)
    requires Inv(c, s) && Onward(s, plan) && NoRestart(acts) && Run(c, s, acts) == Some(t)
    ensures Inv(c, t) && Onward(t, plan) && t.probes <= s.probes
    decreases |acts|
  {
    if acts != [] {
      var mid := Step(c, s, acts[0]).value;
      StepKeeps(c, s, acts[0], mid);
      OnwardStep(c, s, acts[0], mid, plan);
      assert forall i :: 0 <= i < |acts| - 1 ==> acts[1..][i] == acts[i + 1];
      OnwardRun(c, mid, acts[1..], t, plan);
    }
  }

  /** A Task loaded from a saved snapshot with range support sends no probe, keeps the plan, and asks for no byte that the
      snapshot says has arrived, through any faults, pauses and changes of mirror. */
  lemma ResumePicksUp(c: Config, acts: seq<Action>, s: State, snap: Snapshot, loaded: State, more: seq<Action>, t: State)
    requires Serialised(c) && Reaches(c, acts, s) && Step(c, s, Restart(Some(snap))) == Some(loaded)
    requires snap.ranged && NoRestart(more) && Run(c, loaded, more) == Some(t)
    ensures t.probes == 0 && |t.workers| == |t.segments| == |snap.segments|
    ensures forall i :: 0 <= i < |t.segments| ==>
      t.segments[i].start == snap.segments[i].start && t.segments[i].end == snap.segments[i].end
    ensures forall i :: 0 <= i < |t.workers| && t.workers[i].Asked? ==> snap.segments[i].current <= t.workers[i].offset
  {
    ReachableIsSafe(c, acts, s);
    StepKeeps(c, s, Restart(Some(snap)), loaded);
    OnwardRun(c, loaded, more, t, snap.segments);
  }
}
