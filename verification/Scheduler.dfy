/** The scheduler as it runs: a map of entries under one lock, over tasks whose statuses change on their own. */
module Scheduler {
  import opened SchedulerOrder
  import opened SchedulerSpec
  import opened TaskStatus
  import opened Wrappers

  /** What an engine's own goroutines may do to a status: a running task completes, and any task
      that is not cancelled may fail. Nothing but a Resume call makes a task Active. */
  predicate MayBecome(from: Status, to: Status) {
    || to == from
    || (from.Active? && to.Complete?)
    || (!from.Cancelled? && to.Error?)
  }

  ghost predicate Drift(before: map<Id, Status>, after: map<Id, Status>) {
    after.Keys == before.Keys && forall id :: id in before ==> MayBecome(before[id], after[id])
  }

  lemma DriftComposes(a: map<Id, Status>, b: map<Id, Status>, c: map<Id, Status>)
    requires Drift(a, b) && Drift(b, c)
    ensures Drift(a, c)
  {
    forall id | id in a ensures MayBecome(a[id], c[id]) {
      assert MayBecome(a[id], b[id]) && MayBecome(b[id], c[id]);
    }
  }

  /** Background steps never add a running task. */
  lemma DriftAddsNoRunner(before: map<Id, Status>, after: map<Id, Status>)
    requires Drift(before, after)
    ensures Running(after) <= Running(before) && |Running(after)| <= |Running(before)|
  {
    forall id | id in Running(after) ensures id in Running(before) {
      assert MayBecome(before[id], after[id]);
    }
    SubsetSize(Running(after), Running(before));
  }

  lemma DriftFinishesOnly(before: map<Id, Status>, after: map<Id, Status>)
    requires Drift(before, after)
    ensures Runnable(after) <= Runnable(before) && Running(after) <= Runnable(after)
  {
    forall id | id in Runnable(after) ensures id in Runnable(before) {
      assert MayBecome(before[id], after[id]);
    }
  }

  /** Nothing but a request starts a pass, so a slot that is freed in the background stays empty: after a settled
      schedule has drifted the slots are filled as far as they can be exactly when no running task has finished or
      none waits. */
  lemma FreedSlotsStayEmpty(cap: int, entries: map<Id, Entry>, before: map<Id, Status>, after: map<Id, Status>)
    requires Wf(entries, before) && cap > 0 && Settled(cap, entries, before) && Drift(before, after)
    ensures |Running(after)| == (if |Runnable(after)| < cap then |Runnable(after)| else cap)
       <==> Running(after) == Running(before) || Runnable(after) == Running(after)
  {
    SettleFillsTheSlots(cap, entries, before);
    DriftAddsNoRunner(before, after);
    DriftFinishesOnly(before, after);
    SubsetSize(Runnable(after), Runnable(before));
    SubsetSize(Running(after), Runnable(after));
    SameSize(Running(after), Running(before));
    SameSize(Running(after), Runnable(after));
    SameSize(Running(before), Runnable(before));
  }

  lemma SameSize<T>(a: set<T>, b: set<T>)
    requires a <= b
    ensures |a| == |b| <==> a == b
  {
    if x :| x in b && x !in a {
      SmallerSet(a, b, x);
    }
  }

  /** Only a Resume that has work to start can fail. */
  predicate CanFail(call: Call, from: Status) {
    call.Resume? && (from.Pending? || from.Paused? || from.Error?)
  }

  /** The status after one call on a task; a Resume that fails leaves the task in Error. */
  function Outcome(call: Call, from: Status, fails: bool): Status {
    if fails && CanFail(call, from) then Error else Apply(call, from)
  }

  /** What a Remove that fails leaves of a status: anything, except that it starts nothing. */
  function AfterRefusal(from: Status, to: Status): Status {
    if to.Active? then from else to
  }

  lemma RefusalAddsNoRunner(status: map<Id, Status>, id: Id, to: Status)
    requires id in status
    ensures var after := status[id := AfterRefusal(status[id], to)];
            Running(after) <= Running(status) && |Running(after)| <= |Running(status)|
  {
    SubsetSize(Running(status[id := AfterRefusal(status[id], to)]), Running(status));
  }

  datatype Verdict = Done | NotFound | Failed

  datatype Request =
    | Add(id: Id, entry: Entry, initial: Status)
    | Modify(id: Id, call: Call)
    | Drop(id: Id, refusal: Option<Status>)

  class Scheduler {
    const maxConcurrent: int
    var entries: map<Id, Entry>
    var status: map<Id, Status>   // the tasks' own status fields

    ghost predicate Valid()
      reads this
    {
      Wf(entries, status)
    }

    /** At most `maxConcurrent` tasks run, if there is a limit at all. */
    ghost predicate Capped()
      reads this
    {
      maxConcurrent > 0 ==> |Running(status)| <= maxConcurrent
    }

    constructor (maxConcurrent: int)
      ensures Valid() && Capped() && entries == map[] && this.maxConcurrent == maxConcurrent
    {
      this.maxConcurrent := maxConcurrent;
      entries, status := map[], map[];
      new;
      assert Running(status) == {};
    }

    /** Any number of background status changes, or none when the world is `quiet`. */
    method Background(ghost quiet: bool)
      modifies `status
      ensures Drift(old(status), status) && (quiet ==> status == old(status))
    {
    }

    /** One call of Resume, Pause or Cancel on a task. */
    method CallTask(id: Id, call: Call, fails: bool) returns (ok: bool)
      requires id in status
      modifies `status
      ensures status == old(status)[id := Outcome(call, old(status)[id], fails)]
      ensures ok == !(fails && CanFail(call, old(status)[id]))
    {
      ok := !(fails && CanFail(call, status[id]));
      status := status[id := Outcome(call, status[id], fails)];
    }

    /** Collects the runnable tasks in whatever order the map yields them. */
    method Collect(ghost quiet: bool) returns (runnable: seq<Id>)
      requires Valid()
      modifies `status
      ensures Valid() && Drift(old(status), status) && (quiet ==> status == old(status))
      ensures Distinct(runnable) && (forall id :: id in runnable ==> id in entries)
      ensures forall id :: id in status && id !in runnable ==> status[id].Finished()
      ensures forall id :: id in runnable ==> !old(status)[id].Finished()
      ensures quiet ==> Elements(runnable) == Runnable(status)
    {
      runnable := [];
      var todo := entries.Keys;
      while todo != {}
        invariant todo <= entries.Keys && Valid()
        invariant Drift(old(status), status) && (quiet ==> status == old(status))
        invariant Distinct(runnable) && forall id :: id in runnable ==> id in entries && id !in todo
        invariant forall id :: id in status && id !in todo && id !in runnable ==> status[id].Finished()
        invariant forall id :: id in runnable ==> !old(status)[id].Finished()
      {
        ghost var before := status;
        Background(quiet);
        DriftComposes(old(status), before, status);
        var id :| id in todo;
        todo := todo - {id};
        if !status[id].Finished() {
          assert MayBecome(old(status)[id], status[id]);
          runnable := runnable + [id];
        }
      }
    }

    /** Gives the first `maxConcurrent` of the sorted tasks a slot and pauses the others. */
    method Enforce(runnable: seq<Id>, faults: set<Id>, ghost quiet: bool)
      requires Valid() && maxConcurrent > 0
      requires Distinct(runnable) && forall id :: id in runnable ==> id in entries
      requires quiet ==> faults == {}
      requires forall id :: id in status && id !in runnable ==> status[id].Finished()
      modifies `status
      ensures Valid()
      ensures forall id :: id in old(status) && id !in runnable ==> MayBecome(old(status)[id], status[id])
      ensures forall i :: maxConcurrent <= i < |runnable| ==> !status[runnable[i]].Active?
      ensures quiet ==> forall id :: id in status && id !in runnable ==> status[id] == old(status)[id]
      ensures quiet ==> forall i :: 0 <= i < |runnable| ==>
        status[runnable[i]] == Apply(if i < maxConcurrent then Resume else Pause, old(status)[runnable[i]])
    {
      for i := 0 to |runnable|
        invariant Valid()
        invariant forall id :: id in old(status) && id !in runnable ==> MayBecome(old(status)[id], status[id])
        invariant forall j :: maxConcurrent <= j < i ==> !status[runnable[j]].Active?
        invariant quiet ==> forall id :: id in status && id !in runnable ==> status[id] == old(status)[id]
        invariant quiet ==> forall j :: i <= j < |runnable| ==> status[runnable[j]] == old(status)[runnable[j]]
        invariant quiet ==> forall j :: 0 <= j < i ==>
          status[runnable[j]] == Apply(if j < maxConcurrent then Resume else Pause, old(status)[runnable[j]])
      {
        var id := runnable[i];
        Turn(id, i < maxConcurrent, id in faults, quiet);
      }
    }

    /** One turn of that loop: the status is read, and the call made, while the world moves on. */
    method Turn(id: Id, admit: bool, fails: bool, ghost quiet: bool)
      requires Valid() && id in status && (quiet ==> !fails)
      modifies `status
      ensures Valid()
      ensures forall j :: j in old(status) && j != id ==> MayBecome(old(status)[j], status[j])
      ensures !admit ==> !status[id].Active?
      ensures quiet ==> status == old(status)[id := Apply(if admit then Resume else Pause, old(status)[id])]
    {
      Background(quiet);
      ghost var mid := status;
      if admit {
        if !status[id].Active? {
          var _ := CallTask(id, Resume, fails);
        }
      } else if !status[id].Paused? {
        var _ := CallTask(id, Pause, fails);
      }
      assert forall j :: j in mid && j != id ==> status[j] == mid[j];
    }

    /** Enforces the cap. Tasks that were finished when the pass began are left to themselves. */
    method RescheduleLocked(faults: set<Id>, ghost quiet: bool)
      requires Valid() && (quiet ==> faults == {})
      modifies `status
      ensures Valid()
      ensures if maxConcurrent > 0 then Capped() else status == old(status)
      ensures forall id :: id in old(status) && old(status)[id].Finished() ==> MayBecome(old(status)[id], status[id])
      ensures forall id :: id in old(status) && old(status)[id].Error? ==> status[id].Error?
      ensures quiet ==> status == Settle(maxConcurrent, entries, old(status))
    {
      if maxConcurrent <= 0 {
        return;
      }
      var runnable := Collect(quiet);
      ghost var collected := status;
      SortIsListing(entries, runnable);
      var sorted := Sort(entries, runnable);
      SameMembers(runnable, sorted);
      Enforce(sorted, faults, quiet);
      OnlyTheFirstRun(maxConcurrent, status, sorted);
      forall id | id in old(status) && old(status)[id].Finished() ensures MayBecome(old(status)[id], status[id]) {
        assert MayBecome(old(status)[id], collected[id]) && MayBecome(collected[id], status[id]);
      }
      if quiet {
        PassSettles(maxConcurrent, entries, old(status), sorted, status);
      }
    }

    /** Registers a task, in whatever status it is, and re-evaluates who runs. */
    method Enqueue(id: Id, entry: Entry, initial: Status, faults: set<Id>, ghost quiet: bool)
      requires Valid() && (quiet ==> faults == {})
      modifies this
      ensures Valid() && entries == old(entries)[id := entry]
      ensures maxConcurrent > 0 ==> Capped()
      ensures quiet ==> status == Settle(maxConcurrent, entries, old(status)[id := initial])
    {
      entries := entries[id := entry];
      status := status[id := initial];
      RescheduleLocked(faults, quiet);
    }

    /** Pause, Resume and Cancel through the scheduler. */
    method Change(id: Id, call: Call, fails: bool, faults: set<Id>, ghost quiet: bool) returns (verdict: Verdict)
      requires Valid() && (quiet ==> !fails && faults == {})
      modifies `status
      ensures Valid()
      ensures verdict == NotFound <==> id !in entries
      ensures verdict == NotFound ==> status == old(status)
      ensures verdict == Failed ==>
        id in old(status) && CanFail(call, old(status)[id]) && status == old(status)[id := Error]
      ensures verdict == Done && maxConcurrent > 0 ==> Capped()
      ensures old(Capped()) ==> Capped()
      ensures quiet && verdict != NotFound ==> status == Mutate(maxConcurrent, entries, old(status), id, call)
    {
      if id !in entries {
        return NotFound;
      }
      var ok := CallTask(id, call, fails);
      if !ok {
        DriftAddsNoRunner(old(status), status);
        return Failed;
      }
      RescheduleLocked(faults, quiet);
      verdict := Done;
    }

    /** The tasks in whatever order the map yields them. */
    method Ids() returns (ids: seq<Id>)
      ensures Elements(ids) == entries.Keys && Distinct(ids)
    {
      var todo := entries.Keys;
      ids := [];
      while todo != {}
        invariant todo <= entries.Keys && Distinct(ids) && Elements(ids) == entries.Keys - todo
      {
        var id :| id in todo;
        OneMoreId(ids, id);
        todo, ids := todo - {id}, ids + [id];
      }
    }

    /** The tasks, oldest first. */
    method Records() returns (ids: seq<Id>)
      ensures Elements(ids) == entries.Keys && Distinct(ids)
      ensures forall i, j :: 0 <= i < j < |ids| ==>
        var a, b := ids[i], ids[j];
        && entries[a].addedAt <= entries[b].addedAt
        && (entries[a].addedAt == entries[b].addedAt ==> IdLess(a, b))
    {
      var listed := Ids();
      assert forall id :: id in listed ==> id in Elements(listed);
      SortIsListing(Ages(entries), listed);
      ids := Sort(Ages(entries), listed);
      AgesSortByAge(entries, ids);
    }

    /** Cancels a task and forgets it. When the task's own Remove fails, `refusal` is the status that leaves it in. */
    method Remove(id: Id, refusal: Option<Status>, faults: set<Id>, ghost quiet: bool) returns (verdict: Verdict)
      requires Valid() && (quiet ==> faults == {})
      modifies this
      ensures Valid()
      ensures verdict == if id !in old(entries) then NotFound else if refusal.Some? then Failed else Done
      ensures verdict == NotFound ==> status == old(status)
      ensures verdict == Failed ==> status == old(status)[id := AfterRefusal(old(status)[id], refusal.value)]
      ensures entries == if verdict == Failed then old(entries) else old(entries) - {id}
      ensures verdict == Done && maxConcurrent > 0 ==> Capped()
      ensures old(Capped()) ==> Capped()
      ensures quiet && verdict == Done ==> status == Settle(maxConcurrent, entries, old(status) - {id})
    {
      if id !in entries {
        assert entries - {id} == entries;
        return NotFound;
      }
      if refusal.Some? {
        status := status[id := AfterRefusal(status[id], refusal.value)];
        RefusalAddsNoRunner(old(status), id, refusal.value);
        return Failed;
      }
      var _ := CallTask(id, Cancel, false);
      entries := entries - {id};
      status := status - {id};
      assert status == old(status) - {id};
      RescheduleLocked(faults, quiet);
      verdict := Done;
    }

    /** A whole run: requests in any order, with background steps before each and inside every pass, and with any
        resumes failing. Whenever the lock is free the cap holds; in a quiet world the requests are answered one by one. */
    method Serve(requests: seq<Request>, failures: seq<set<Id>>, ghost quiet: bool)
      requires Valid() && Capped() && (quiet ==> failures == [])
      modifies this
      ensures Valid() && Capped()
      ensures quiet ==> Desk(entries, status) == AnswerAll(maxConcurrent, Desk(old(entries), old(status)), requests)
    {
      for i := 0 to |requests|
        invariant Valid() && Capped()
        invariant quiet ==> Desk(entries, status) == AnswerAll(maxConcurrent, Desk(old(entries), old(status)), requests[..i])
      {
        ghost var before := status;
        Background(quiet);
        DriftAddsNoRunner(before, status);
        AnswerNext(maxConcurrent, Desk(old(entries), old(status)), requests, i);
        var faults := if i < |failures| then failures[i] else {};
        Handle(requests[i], faults, quiet);
      }
      assert requests[..|requests|] == requests;
    }

    /** One request. */
    method Handle(request: Request, faults: set<Id>, ghost quiet: bool)
      requires Valid() && Capped() && (quiet ==> faults == {})
      modifies this
      ensures Valid() && Capped()
      ensures quiet ==> Desk(entries, status) == Answer(maxConcurrent, Desk(old(entries), old(status)), request)
    {
      match request {
        case Add(id, entry, initial) => Enqueue(id, entry, initial, faults, quiet);
        case Modify(id, call) => var _ := Change(id, call, id in faults, faults, quiet);
        case Drop(id, refusal) => var _ := Remove(id, refusal, faults, quiet);
      }
    }
  }

  // ---------------------------------------------------------------- undisturbed runs

  /** What the scheduler knows of its tasks. */
  datatype Desk = Desk(entries: map<Id, Entry>, status: map<Id, Status>)

  /** What one request makes of it when no task does anything on its own and no resume fails. */
  ghost function Answer(cap: int, d: Desk, request: Request): (r: Desk)
    requires Wf(d.entries, d.status)
    ensures Wf(r.entries, r.status)
  {
    match request
    case Add(id, entry, initial) => Desk(d.entries[id := entry], Settle(cap, d.entries[id := entry], d.status[id := initial]))
    case Modify(id, call) =>
      if id in d.entries then Desk(d.entries, Mutate(cap, d.entries, d.status, id, call)) else d
    case Drop(id, refusal) =>
      if id !in d.entries then d
      else if refusal.Some? then Desk(d.entries, d.status[id := AfterRefusal(d.status[id], refusal.value)])
      else Desk(d.entries - {id}, Settle(cap, d.entries - {id}, d.status - {id}))
  }

  ghost function AnswerAll(cap: int, d: Desk, requests: seq<Request>): (r: Desk)
    requires Wf(d.entries, d.status)
    ensures Wf(r.entries, r.status)
  {
    if requests == [] then d
    else Answer(cap, AnswerAll(cap, d, requests[..|requests| - 1]), requests[|requests| - 1])
  }

  lemma AnswerNext(cap: int, d: Desk, requests: seq<Request>, i: nat)
    requires Wf(d.entries, d.status) && i < |requests|
    ensures AnswerAll(cap, d, requests[..i + 1]) == Answer(cap, AnswerAll(cap, d, requests[..i]), requests[i])
  {
    assert requests[..i + 1][..i] == requests[..i];
  }

  lemma OneMoreId(ids: seq<Id>, id: Id)
    requires Distinct(ids) && id !in Elements(ids)
    ensures Distinct(ids + [id]) && Elements(ids + [id]) == Elements(ids) + {id}
  {
    forall i | 0 <= i < |ids| ensures ids[i] != id {
      assert ids[i] in Elements(ids);
    }
  }

  lemma AgesSortByAge(entries: map<Id, Entry>, ids: seq<Id>)
    requires Elements(ids) <= entries.Keys
    requires SortedIds(Ages(entries), ids)
    ensures forall i, j :: 0 <= i < j < |ids| ==>
      var a, b := ids[i], ids[j];
      && entries[a].addedAt <= entries[b].addedAt
      && (entries[a].addedAt == entries[b].addedAt ==> IdLess(a, b))
  {
    forall i, j | 0 <= i < j < |ids|
      ensures entries[ids[i]].addedAt <= entries[ids[j]].addedAt
      ensures entries[ids[i]].addedAt == entries[ids[j]].addedAt ==> IdLess(ids[i], ids[j])
    {
      assert ids[i] in Elements(ids) && ids[j] in Elements(ids);
      assert Before(Ages(entries), ids[i], ids[j]);
    }
  }

  lemma SameMembers(a: seq<Id>, b: seq<Id>)
    requires Elements(a) == Elements(b)
    ensures forall id :: id in a <==> id in b
  {
    assert forall id :: id in a <==> id in Elements(a);
    assert forall id :: id in b <==> id in Elements(b);
  }

  lemma OnlyTheFirstRun(cap: nat, status: map<Id, Status>, sorted: seq<Id>)
    requires Distinct(sorted) && forall id :: id in sorted ==> id in status
    requires forall id :: id in status && id !in sorted ==> !status[id].Active?
    requires forall i :: cap <= i < |sorted| ==> !status[sorted[i]].Active?
    ensures |Running(status)| <= cap
  {
    var first := sorted[..if cap < |sorted| then cap else |sorted|];
    forall id | id in Running(status) ensures id in Elements(first) {
      var i :| 0 <= i < |sorted| && sorted[i] == id;
      assert first[i] == id;
    }
    DistinctSize(first);
    SubsetSize(Running(status), Elements(first));
  }

  /** Resuming the first and pausing the rest of the sorted runnable tasks is what `Settle` specifies by rank. */
  lemma PassSettles(cap: int, entries: map<Id, Entry>, before: map<Id, Status>, sorted: seq<Id>, after: map<Id, Status>)
    requires Wf(entries, before) && Wf(entries, after) && cap > 0
    requires forall id :: id in sorted ==> id in entries
    requires Distinct(sorted) && Elements(sorted) == Runnable(before) && SortedIds(entries, sorted)
    requires forall id :: id in after && id !in sorted ==> after[id] == before[id]
    requires forall i :: 0 <= i < |sorted| ==>
      after[sorted[i]] == Apply(if i < cap then Resume else Pause, before[sorted[i]])
    ensures after == Settle(cap, entries, before)
  {
    forall id | id in before ensures after[id] == Settle(cap, entries, before)[id] {
      if id in sorted {
        var i :| 0 <= i < |sorted| && sorted[i] == id;
        PositionIsRank(entries, sorted, i);
        assert id in Elements(sorted);
      } else {
        assert id !in Elements(sorted);
      }
    }
  }
}
