/** What a reschedule pass settles on, stated by rank and without a sort, and what that means for callers. */
module SchedulerSpec {
  import opened SchedulerOrder
  import opened TaskStatus

  /** The calls a task offers, as the engines implement them when nothing fails. */
  datatype Call = Resume | Pause | Cancel

  function Apply(call: Call, st: Status): Status {
    match call
    case Resume => if st.Active? || st.Complete? || st.Cancelled? then st else Active
    case Pause => if st.Active? then Paused else st
    case Cancel => Cancelled
  }

  ghost predicate Wf(entries: map<Id, Entry>, status: map<Id, Status>) {
    status.Keys == entries.Keys
  }

  /** The statuses after an undisturbed reschedule pass. A cap of 0 or less means unlimited: nothing is touched. */
  ghost function Settle(cap: int, entries: map<Id, Entry>, status: map<Id, Status>): map<Id, Status>
    requires Wf(entries, status)
  {
    if cap <= 0 then status
    else
      var top := Top(cap, entries, Runnable(status));
      map id | id in status ::
        if status[id].Finished() then status[id]
        else Apply(if id in top then Resume else Pause, status[id])
  }

  ghost predicate Settled(cap: int, entries: map<Id, Entry>, status: map<Id, Status>)
    requires Wf(entries, status)
  {
    Settle(cap, entries, status) == status
  }

  /** A pass makes exactly the top of the runnable tasks Active, fills every slot it can, and never exceeds the cap. */
  lemma SettleFillsTheSlots(cap: int, entries: map<Id, Entry>, status: map<Id, Status>)
    requires Wf(entries, status) && cap > 0
    ensures Running(Settle(cap, entries, status)) == Top(cap, entries, Runnable(status))
    ensures Runnable(Settle(cap, entries, status)) == Runnable(status)
    ensures |Running(Settle(cap, entries, status))| == if |Runnable(status)| < cap then |Runnable(status)| else cap
  {
    assert Running(Settle(cap, entries, status)) == Top(cap, entries, Runnable(status));
    TopSize(cap, entries, Runnable(status));
  }

  lemma TopSize(cap: nat, entries: map<Id, Entry>, run: set<Id>)
    requires run <= entries.Keys
    ensures |Top(cap, entries, run)| == if |run| < cap then |run| else cap
  {
    var ids := Listing(run);
    assert forall j :: j in ids ==> j in Elements(ids);
    SortIsListing(entries, ids);
    DistinctSize(ids);
    var sorted := Sort(entries, ids);
    var n := if |run| < cap then |run| else cap;
    forall i | 0 <= i < |sorted| ensures Rank(entries, run, sorted[i]) == i {
      PositionIsRank(entries, sorted, i);
    }
    forall id | id in run ensures id in sorted {
      assert id in Elements(sorted);
    }
    assert Top(cap, entries, run) == Elements(sorted[..n]);
    DistinctSize(sorted[..n]);
  }

  /** A second pass changes nothing. */
  lemma SettleIsIdempotent(cap: int, entries: map<Id, Entry>, status: map<Id, Status>)
    requires Wf(entries, status)
    ensures Settled(cap, entries, Settle(cap, entries, status))
  {
    if cap > 0 {
      SettleFillsTheSlots(cap, entries, status);
    }
  }

  /** Which tasks run depends on who is runnable, not on who was running or paused before. */
  lemma HistoryDoesNotMatter(cap: int, entries: map<Id, Entry>, status: map<Id, Status>, other: map<Id, Status>)
    requires Wf(entries, status) && Wf(entries, other) && cap > 0
    requires Runnable(status) == Runnable(other)
    ensures Running(Settle(cap, entries, status)) == Running(Settle(cap, entries, other))
  {
    SettleFillsTheSlots(cap, entries, status);
    SettleFillsTheSlots(cap, entries, other);
  }

  /** No runnable task waits while a task that comes after it runs. */
  lemma NoInversion(cap: int, entries: map<Id, Entry>, status: map<Id, Status>, runs: Id, waits: Id)
    requires Wf(entries, status) && cap > 0 && Settled(cap, entries, status)
    requires runs in Running(status) && waits in Runnable(status) && waits !in Running(status)
    ensures Before(entries, runs, waits)
  {
    SettleFillsTheSlots(cap, entries, status);
    RankFollowsOrder(entries, Runnable(status), runs, waits);
  }

  /** Said of the entries themselves: a task that runs has no lower priority than one that waits; among equal priorities
      it is not younger; and among tasks of one priority and age it has the smaller ID. */
  lemma HigherPriorityRuns(cap: int, entries: map<Id, Entry>, status: map<Id, Status>, runs: Id, waits: Id)
    requires Wf(entries, status) && cap > 0 && Settled(cap, entries, status)
    requires runs in Running(status) && waits in Runnable(status) && waits !in Running(status)
    ensures entries[runs].priority >= entries[waits].priority
    ensures entries[runs].priority == entries[waits].priority ==> entries[runs].addedAt <= entries[waits].addedAt
    ensures entries[runs] == entries[waits] ==> IdLess(runs, waits)
  {
    NoInversion(cap, entries, status, runs, waits);
  }

  // ---------------------------------------------------------------- minimal disturbance

  /** The statuses right after a new task is registered, before the pass. */
  function WithNew(status: map<Id, Status>, id: Id): map<Id, Status> {
    status[id := Pending]
  }

  /** Enqueuing into a settled schedule starts at most the newcomer and stops at most one task: the last of the
      running ones, and only when every slot was taken by then. */
  lemma EnqueueDisturbsLittle(cap: int, entries: map<Id, Entry>, status: map<Id, Status>, id: Id, e: Entry)
    requires Wf(entries, status) && cap > 0 && Settled(cap, entries, status) && id !in entries
    ensures
      var old' := Running(status);
      var new' := Running(Settle(cap, entries[id := e], WithNew(status, id)));
      && new' - old' <= {id}
      && (forall j :: j in old' - new' ==>
          && id in new' && |old'| == cap
          && forall k :: k in old' && k != j ==> Before(entries, k, j))
      && (id in new' <==> Rank(entries[id := e], Runnable(status), id) < cap)
  {
    var entries', status' := entries[id := e], WithNew(status, id);
    assert Runnable(status') == Runnable(status) + {id};
    SettleFillsTheSlots(cap, entries, status);
    SettleFillsTheSlots(cap, entries', status');
    TopWithNewcomer(cap, entries, entries', Runnable(status), id);
  }

  lemma TopWithNewcomer(cap: nat, entries: map<Id, Entry>, entries': map<Id, Entry>, run: set<Id>, id: Id)
    requires run <= entries.Keys && run <= entries'.Keys && id in entries' && id !in run && cap > 0
    requires forall j :: j in run ==> entries'[j] == entries[j]
    ensures
      var before, after := Top(cap, entries, run), Top(cap, entries', run + {id});
      && after - before <= {id}
      && (forall j :: j in before - after ==>
          id in after && |before| == cap && forall k :: k in before && k != j ==> Before(entries, k, j))
      && (id in after <==> Rank(entries', run, id) < cap)
  {
    RanksWithNewcomer(entries, entries', run, id);
    var before, after := Top(cap, entries, run), Top(cap, entries', run + {id});
    forall j | j in before - after
      ensures id in after && |before| == cap && forall k :: k in before && k != j ==> Before(entries, k, j)
    {
      DisplacedIsLast(cap, entries, run, j);
      RankIgnoresOthers(entries, entries', run, j);
      NewcomerTakesTheSlot(entries', run, id, j);
    }
  }

  /** A newcomer pushes down by one exactly the tasks it comes before. */
  lemma RanksWithNewcomer(entries: map<Id, Entry>, entries': map<Id, Entry>, run: set<Id>, id: Id)
    requires run <= entries.Keys && run <= entries'.Keys && id in entries' && id !in run
    requires forall j :: j in run ==> entries'[j] == entries[j]
    ensures Rank(entries', run + {id}, id) == Rank(entries', run, id)
    ensures forall j :: j in run ==>
      Rank(entries', run + {id}, j) == Rank(entries, run, j) + if Before(entries', id, j) then 1 else 0
  {
    forall j | j in run
      ensures Rank(entries', run + {id}, j) == Rank(entries, run, j) + if Before(entries', id, j) then 1 else 0
    {
      RankWithNewcomer(entries', run, id, j);
      RankIgnoresOthers(entries, entries', run, j);
    }
    BeforeIsStrictOrder(entries', id, id, id);
    RankWithNewcomer(entries', run, id, id);
  }

  /** The task of rank `cap - 1` comes after all the other running ones, and there are `cap` of them. */
  lemma DisplacedIsLast(cap: int, entries: map<Id, Entry>, run: set<Id>, j: Id)
    requires run <= entries.Keys && j in run && Rank(entries, run, j) == cap - 1
    ensures forall k :: k in Top(cap, entries, run) && k != j ==> Before(entries, k, j)
    ensures |Top(cap, entries, run)| == cap
  {
    forall k | k in Top(cap, entries, run) && k != j ensures Before(entries, k, j) {
      RankFollowsOrder(entries, run, k, j);
    }
    TopSize(cap, entries, run);
    BeforeIsStrictOrder(entries, j, j, j);
    SmallerSet(Ahead(entries, run, j), run, j);
  }

  lemma NewcomerTakesTheSlot(entries: map<Id, Entry>, run: set<Id>, id: Id, j: Id)
    requires run <= entries.Keys && id in entries && id !in run && j in run && Before(entries, id, j)
    ensures Rank(entries, run, id) <= Rank(entries, run, j)
  {
    forall k | k in Ahead(entries, run, id) ensures k in Ahead(entries, run, j) {
      BeforeIsStrictOrder(entries, k, id, j);
    }
    SubsetSize(Ahead(entries, run, id), Ahead(entries, run, j));
  }

  /** The competitors of rank `r`; there is at most one. */
  ghost function AtRank(entries: map<Id, Entry>, run: set<Id>, r: nat): set<Id>
    requires run <= entries.Keys
  {
    set j | j in run && Rank(entries, run, j) == r
  }

  /** A running task leaves the competition, in place or with its entry: exactly the next-ranked runnable task, if any,
      takes its slot. `rest` and `left` are the entries and statuses that remain. */
  lemma LeavingAdmitsTheNext(cap: int, entries: map<Id, Entry>, status: map<Id, Status>, id: Id,
                             rest: map<Id, Entry>, left: map<Id, Status>)
    requires Wf(entries, status) && cap > 0 && Settled(cap, entries, status)
    requires id in Running(status) && Wf(rest, left) && Runnable(left) == Runnable(status) - {id}
    requires forall j :: j in Runnable(left) ==> rest[j] == entries[j]
    ensures
      var next := AtRank(entries, Runnable(status), cap);
      && Running(Settle(cap, rest, left)) == Running(status) - {id} + next
      && |next| == if |Runnable(status)| > cap then 1 else 0
  {
    SettleFillsTheSlots(cap, entries, status);
    SettleFillsTheSlots(cap, rest, left);
    TopAfterLeaving(cap, entries, Runnable(status), id);
    OneOfRank(entries, Runnable(status), cap);
    forall j | j in Runnable(left) ensures Rank(rest, Runnable(left), j) == Rank(entries, Runnable(left), j) {
      RankIgnoresOthers(entries, rest, Runnable(left), j);
    }
  }

  /** Removing a running task from a settled schedule admits exactly the next-ranked runnable task. */
  lemma RemovalAdmitsTheNext(cap: int, entries: map<Id, Entry>, status: map<Id, Status>, id: Id)
    requires Wf(entries, status) && cap > 0 && Settled(cap, entries, status) && id in Running(status)
    ensures
      var next := AtRank(entries, Runnable(status), cap);
      && Running(Settle(cap, entries - {id}, status - {id})) == Running(status) - {id} + next
      && |next| == if |Runnable(status)| > cap then 1 else 0
  {
    assert Runnable(status - {id}) == Runnable(status) - {id};
    LeavingAdmitsTheNext(cap, entries, status, id, entries - {id}, status - {id});
  }

  /** So does a running task that completes, fails or is cancelled where it is. */
  lemma FinishingAdmitsTheNext(cap: int, entries: map<Id, Entry>, status: map<Id, Status>, id: Id, last: Status)
    requires Wf(entries, status) && cap > 0 && Settled(cap, entries, status) && id in Running(status)
    requires last.Finished()
    ensures
      var next := AtRank(entries, Runnable(status), cap);
      Running(Settle(cap, entries, status[id := last])) == Running(status) - {id} + next
  {
    assert Runnable(status[id := last]) == Runnable(status) - {id};
    LeavingAdmitsTheNext(cap, entries, status, id, entries, status[id := last]);
  }

  lemma TopAfterLeaving(cap: nat, entries: map<Id, Entry>, run: set<Id>, id: Id)
    requires run <= entries.Keys && id in run && Rank(entries, run, id) < cap
    ensures Top(cap, entries, run - {id}) == Top(cap, entries, run) - {id} + AtRank(entries, run, cap)
  {
    var rest := run - {id};
    assert rest + {id} == run;
    forall j | j in rest
      ensures j in Top(cap, entries, rest) <==> j in Top(cap, entries, run) || j in AtRank(entries, run, cap)
    {
      RankWithNewcomer(entries, rest, id, j);
      RankFollowsOrder(entries, run, id, j);
    }
  }

  lemma OneOfRank(entries: map<Id, Entry>, run: set<Id>, r: nat)
    requires run <= entries.Keys
    ensures |AtRank(entries, run, r)| == if |run| > r then 1 else 0
  {
    var those := AtRank(entries, run, r);
    if |run| > r {
      var x := RankIsTaken(entries, run, r);
      forall j | j in those ensures j == x {
        if j != x {
          RankFollowsOrder(entries, run, j, x);
        }
      }
      assert those == {x};
    } else {
      forall j | j in run ensures Rank(entries, run, j) != r {
        BeforeIsStrictOrder(entries, j, j, j);
        SmallerSet(Ahead(entries, run, j), run, j);
      }
      assert those == {};
    }
  }

  // ---------------------------------------------------------------- what a call through the scheduler achieves

  /** The statuses after a successful `mutate` on `id` with nothing else going on. */
  ghost function Mutate(cap: int, entries: map<Id, Entry>, status: map<Id, Status>, id: Id, call: Call): map<Id, Status>
    requires Wf(entries, status) && id in status
  {
    Settle(cap, entries, status[id := Apply(call, status[id])])
  }

  /** Pausing a task through the scheduler sticks exactly when the task is finished, or there is no cap,
      or the task is ranked outside the cap; otherwise the pass that follows resumes it. */
  lemma PauseSticks(cap: int, entries: map<Id, Entry>, status: map<Id, Status>, id: Id)
    requires Wf(entries, status) && id in status
    ensures !Mutate(cap, entries, status, id, Pause)[id].Active?
       <==> status[id].Finished() || cap <= 0 || Rank(entries, Runnable(status), id) >= cap
  {
    var paused := status[id := Apply(Pause, status[id])];
    assert Runnable(paused) == Runnable(status);
  }

  /** In a settled schedule with a cap, Pause therefore never frees a slot: the running set stays as it was. */
  lemma PauseFreesNoSlot(cap: int, entries: map<Id, Entry>, status: map<Id, Status>, id: Id)
    requires Wf(entries, status) && id in status && cap > 0 && Settled(cap, entries, status)
    ensures Running(Mutate(cap, entries, status, id, Pause)) == Running(status)
  {
    var paused := status[id := Apply(Pause, status[id])];
    assert Runnable(paused) == Runnable(status);
    SettleFillsTheSlots(cap, entries, status);
    SettleFillsTheSlots(cap, entries, paused);
  }

  /** Resuming a task through the scheduler runs it exactly when it can run at all and is ranked within the cap. */
  lemma ResumeRuns(cap: int, entries: map<Id, Entry>, status: map<Id, Status>, id: Id)
    requires Wf(entries, status) && id in status
    ensures Mutate(cap, entries, status, id, Resume)[id].Active?
       <==> && !status[id].Complete? && !status[id].Cancelled?
            && (cap <= 0 || Rank(entries, Runnable(status) + {id}, id) < cap)
  {
    var resumed := status[id := Apply(Resume, status[id])];
    if !status[id].Complete? && !status[id].Cancelled? {
      assert Runnable(resumed) == Runnable(status) + {id};
    }
  }

  /** A Resume that bypasses the scheduler breaks the cap exactly when the slots are full and the task is not running. */
  lemma DirectResumeBreaksTheCap(cap: int, entries: map<Id, Entry>, status: map<Id, Status>, id: Id)
    requires Wf(entries, status) && id in status && cap > 0 && Settled(cap, entries, status)
    ensures |Running(status[id := Apply(Resume, status[id])])| > cap
       <==> |Running(status)| == cap && (status[id].Pending? || status[id].Paused? || status[id].Error?)
  {
    SettleFillsTheSlots(cap, entries, status);
    var after := status[id := Apply(Resume, status[id])];
    if status[id].Pending? || status[id].Paused? || status[id].Error? {
      assert Running(after) == Running(status) + {id};
    } else {
      assert after == status;
    }
  }
}
