/** The order in which tasks compete for slots, and the specification of a settled schedule. */
module SchedulerOrder {
  import opened TaskStatus

  type Id = string

  datatype Entry = Entry(priority: int, addedAt: int)

  /** Go's string comparison. */
  predicate IdLess(a: Id, b: Id) {
    if b == [] then false
    else if a == [] then true
    else a[0] < b[0] || (a[0] == b[0] && IdLess(a[1..], b[1..]))
  }

  /** Does task `a` come before task `b`? Higher priority first, then older, then smaller ID. */
  predicate Before(entries: map<Id, Entry>, a: Id, b: Id)
    requires a in entries && b in entries
  {
    var x, y := entries[a], entries[b];
    if x.priority != y.priority then x.priority > y.priority
    else if x.addedAt != y.addedAt then x.addedAt < y.addedAt
    else IdLess(a, b)
  }

  lemma {:induction false} IdOrder(a: Id, b: Id, c: Id)
    ensures !IdLess(a, a)
    ensures a != b ==> IdLess(a, b) || IdLess(b, a)
    ensures IdLess(a, b) && IdLess(b, c) ==> IdLess(a, c)
    decreases |a| + |b| + |c|
  {
    if a != [] {
      IdOrder(a[1..], if b == [] then [] else b[1..], if c == [] then [] else c[1..]);
      if b != [] && a[0] == b[0] && a[1..] == b[1..] {
        assert a == [a[0]] + a[1..] == b;
      }
    }
  }

  /** The order of strings is lexicographic: at the first difference the smaller character decides, and a proper prefix
      comes first. */
  lemma {:induction false} IdLessIsLexicographic(a: Id, b: Id, k: nat)
    requires k <= |a| && k <= |b| && a[..k] == b[..k]
    ensures k == |a| < |b| ==> IdLess(a, b) && !IdLess(b, a)
    ensures k < |a| && k < |b| && a[k] < b[k] ==> IdLess(a, b) && !IdLess(b, a)
    decreases k
  {
    if k > 0 {
      assert a[0] == a[..k][0] == b[0];
      assert a[1..][..k - 1] == a[..k][1..] && b[1..][..k - 1] == b[..k][1..];
      IdLessIsLexicographic(a[1..], b[1..], k - 1);
    }
  }

  lemma BeforeIsStrictOrder(entries: map<Id, Entry>, a: Id, b: Id, c: Id)
    requires a in entries && b in entries && c in entries
    ensures !Before(entries, a, a)
    ensures a != b ==> Before(entries, a, b) || Before(entries, b, a)
    ensures Before(entries, a, b) && Before(entries, b, c) ==> Before(entries, a, c)
  {
    IdOrder(a, b, c);
  }

  // ---------------------------------------------------------------- ranks

  /** The tasks a reschedule pass may resume or pause. */
  function Runnable(status: map<Id, Status>): set<Id> {
    set id | id in status && !status[id].Finished()
  }

  function Running(status: map<Id, Status>): set<Id> {
    set id | id in status && status[id].Active?
  }

  ghost function Ahead(entries: map<Id, Entry>, run: set<Id>, id: Id): set<Id>
    requires run <= entries.Keys && id in entries
  {
    set j | j in run && Before(entries, j, id)
  }

  /** How many competitors come before `id`. */
  ghost function Rank(entries: map<Id, Entry>, run: set<Id>, id: Id): nat
    requires run <= entries.Keys && id in entries
  {
    |Ahead(entries, run, id)|
  }

  /** The first `cap` tasks of `run`. */
  ghost function Top(cap: int, entries: map<Id, Entry>, run: set<Id>): set<Id>
    requires run <= entries.Keys
  {
    set id | id in run && Rank(entries, run, id) < cap
  }

  lemma SmallerSet<T>(a: set<T>, b: set<T>, x: T)
    requires a <= b && x in b && x !in a
    ensures |a| < |b|
  {
    SubsetSize(a, b - {x});
  }

  lemma {:induction false} SubsetSize<T>(a: set<T>, b: set<T>)
    requires a <= b
    ensures |a| <= |b|
    decreases a
  {
    if x :| x in a {
      SubsetSize(a - {x}, b - {x});
    }
  }

  lemma RankFollowsOrder(entries: map<Id, Entry>, run: set<Id>, a: Id, b: Id)
    requires run <= entries.Keys && a in run && b in run && a != b
    ensures Before(entries, a, b) <==> Rank(entries, run, a) < Rank(entries, run, b)
    ensures Rank(entries, run, a) != Rank(entries, run, b)
  {
    BeforeIsStrictOrder(entries, a, b, a);
    if Before(entries, a, b) {
      RankGrows(entries, run, a, b);
    } else {
      RankGrows(entries, run, b, a);
    }
  }

  lemma RankGrows(entries: map<Id, Entry>, run: set<Id>, a: Id, b: Id)
    requires run <= entries.Keys && a in run && b in run && Before(entries, a, b)
    ensures Rank(entries, run, a) < Rank(entries, run, b)
  {
    forall j | j in Ahead(entries, run, a) ensures j in Ahead(entries, run, b) {
      BeforeIsStrictOrder(entries, j, a, b);
    }
    BeforeIsStrictOrder(entries, a, a, a);
    SmallerSet(Ahead(entries, run, a), Ahead(entries, run, b), a);
  }

  /** A newcomer pushes down exactly the tasks it comes before. */
  lemma RankWithNewcomer(entries: map<Id, Entry>, run: set<Id>, x: Id, id: Id)
    requires run <= entries.Keys && x in entries && x !in run && id in entries
    ensures Rank(entries, run + {x}, id) == Rank(entries, run, id) + if Before(entries, x, id) then 1 else 0
  {
    var before, after := Ahead(entries, run, id), Ahead(entries, run + {x}, id);
    if Before(entries, x, id) {
      assert after == before + {x};
    } else {
      assert after == before;
    }
  }

  lemma RankIgnoresOthers(entries: map<Id, Entry>, entries': map<Id, Entry>, run: set<Id>, id: Id)
    requires run <= entries.Keys && run <= entries'.Keys && id in entries && id in entries'
    requires entries[id] == entries'[id] && forall j :: j in run ==> entries[j] == entries'[j]
    ensures Rank(entries, run, id) == Rank(entries', run, id)
  {
    assert Ahead(entries, run, id) == Ahead(entries', run, id);
  }

  // ---------------------------------------------------------------- sorted lists realise the ranks

  predicate Distinct(ids: seq<Id>) {
    forall i, j :: 0 <= i < j < |ids| ==> ids[i] != ids[j]
  }

  ghost predicate SortedIds(entries: map<Id, Entry>, ids: seq<Id>)
    requires forall id :: id in ids ==> id in entries
  {
    forall i, j :: 0 <= i < j < |ids| ==> Before(entries, ids[i], ids[j])
  }

  ghost function Elements(ids: seq<Id>): set<Id> {
    set id | id in ids
  }

  lemma {:induction false} DistinctSize(ids: seq<Id>)
    requires Distinct(ids)
    ensures |Elements(ids)| == |ids|
  {
    if ids == [] {
      assert Elements(ids) == {};
    } else {
      var rest := ids[..|ids| - 1];
      DistinctSize(rest);
      assert ids == rest + [ids[|ids| - 1]];
      assert Elements(ids) == Elements(rest) + {ids[|ids| - 1]};
    }
  }

  /** In a sorted list of all competitors, position is rank. */
  lemma PositionIsRank(entries: map<Id, Entry>, ids: seq<Id>, i: nat)
    requires Elements(ids) <= entries.Keys
    requires Distinct(ids) && SortedIds(entries, ids) && i < |ids|
    ensures Rank(entries, Elements(ids), ids[i]) == i
  {
    forall j | 0 <= j < |ids| ensures Before(entries, ids[j], ids[i]) <==> j < i {
      BeforeIsStrictOrder(entries, ids[i], ids[j], ids[i]);
    }
    assert Ahead(entries, Elements(ids), ids[i]) == Elements(ids[..i]);
    DistinctSize(ids[..i]);
  }

  /** Inserts `id` before the first element it precedes. */
  function Insert(entries: map<Id, Entry>, id: Id, ids: seq<Id>): (r: seq<Id>)
    requires id in entries && forall j :: j in ids ==> j in entries
    ensures multiset(r) == multiset(ids) + multiset{id}
    ensures |r| == |ids| + 1
  {
    if ids == [] then [id]
    else if Before(entries, id, ids[0]) then [id] + ids
    else
      assert ids == [ids[0]] + ids[1..];
      [ids[0]] + Insert(entries, id, ids[1..])
  }

  /** The slice as `sort.Slice` leaves it. */
  function Sort(entries: map<Id, Entry>, ids: seq<Id>): (r: seq<Id>)
    requires forall j :: j in ids ==> j in entries
    ensures multiset(r) == multiset(ids)
    ensures |r| == |ids|
  {
    if ids == [] then []
    else
      assert ids == [ids[0]] + ids[1..];
      var rest := Sort(entries, ids[1..]);
      assert forall j :: j in rest ==> j in multiset(rest);
      Insert(entries, ids[0], rest)
  }

  lemma {:induction false} InsertKeepsOrder(entries: map<Id, Entry>, id: Id, ids: seq<Id>)
    requires id in entries && id !in ids && (forall j :: j in ids ==> j in entries)
    requires SortedIds(entries, ids)
    ensures var r := Insert(entries, id, ids);
            (forall j :: j in r <==> j == id || j in ids) && SortedIds(entries, r)
  {
    if ids != [] {
      var head, tail := ids[0], ids[1..];
      assert ids == [head] + tail;
      BeforeIsStrictOrder(entries, id, head, id);
      if Before(entries, id, head) {
        LeadKeepsOrder(entries, id, head, ids);
      } else {
        InsertKeepsOrder(entries, id, tail);
        PrependKeepsOrder(entries, head, Insert(entries, id, tail));
      }
    }
  }

  /** Something that precedes the head of a sorted list precedes all of it. */
  lemma LeadKeepsOrder(entries: map<Id, Entry>, id: Id, head: Id, ids: seq<Id>)
    requires id in entries && ids != [] && ids[0] == head && (forall j :: j in ids ==> j in entries)
    requires SortedIds(entries, ids) && Before(entries, id, head)
    ensures SortedIds(entries, [id] + ids)
  {
    var r := [id] + ids;
    forall j | 0 < j < |r| ensures Before(entries, id, r[j]) {
      BeforeIsStrictOrder(entries, id, head, r[j]);
    }
  }

  lemma PrependKeepsOrder(entries: map<Id, Entry>, id: Id, ids: seq<Id>)
    requires id in entries && (forall j :: j in ids ==> j in entries && Before(entries, id, j))
    requires SortedIds(entries, ids)
    ensures SortedIds(entries, [id] + ids)
  {
    var r := [id] + ids;
    forall j | 0 < j < |r| ensures Before(entries, id, r[j]) {
      assert r[j] in ids;
    }
  }

  lemma {:induction false} SortSorts(entries: map<Id, Entry>, ids: seq<Id>)
    requires Distinct(ids) && forall j :: j in ids ==> j in entries
    ensures var r := Sort(entries, ids);
            |r| == |ids| && (forall j :: j in r <==> j in ids) && SortedIds(entries, r)
  {
    if ids != [] {
      var tail := ids[1..];
      assert ids == [ids[0]] + tail;
      SortSorts(entries, tail);
      InsertKeepsOrder(entries, ids[0], Sort(entries, tail));
    }
  }

  lemma SortIsListing(entries: map<Id, Entry>, ids: seq<Id>)
    requires Distinct(ids) && forall j :: j in ids ==> j in entries
    ensures var r := Sort(entries, ids);
            |r| == |ids| && Elements(r) == Elements(ids) <= entries.Keys && Distinct(r) && SortedIds(entries, r)
  {
    SortSorts(entries, ids);
    SortedIsDistinct(entries, Sort(entries, ids));
  }

  /** There is only one sorted list of the same tasks: the order in which a map yields them cannot show. */
  lemma SortedListIsUnique(entries: map<Id, Entry>, a: seq<Id>, b: seq<Id>)
    requires Elements(a) == Elements(b) <= entries.Keys
    requires SortedIds(entries, a) && SortedIds(entries, b)
    ensures a == b
  {
    SortedIsDistinct(entries, a);
    SortedIsDistinct(entries, b);
    DistinctSize(a);
    DistinctSize(b);
    forall i | 0 <= i < |a| ensures a[i] == b[i] {
      PositionIsRank(entries, a, i);
      PositionIsRank(entries, b, i);
      if a[i] != b[i] {
        assert a[i] in Elements(a) && b[i] in Elements(b);
        RankFollowsOrder(entries, Elements(a), a[i], b[i]);
      }
    }
  }

  /** The entries as `Records` compares them: age first, then ID. */
  function Ages(entries: map<Id, Entry>): map<Id, Entry> {
    map id | id in entries :: Entry(0, entries[id].addedAt)
  }

  lemma SortedIsDistinct(entries: map<Id, Entry>, ids: seq<Id>)
    requires (forall j :: j in ids ==> j in entries) && SortedIds(entries, ids)
    ensures Distinct(ids)
  {
    forall i, j | 0 <= i < j < |ids| ensures ids[i] != ids[j] {
      BeforeIsStrictOrder(entries, ids[i], ids[j], ids[i]);
    }
  }

  lemma {:induction false} Listing(s: set<Id>) returns (ids: seq<Id>)
    ensures Distinct(ids) && Elements(ids) == s
    decreases s
  {
    if s == {} {
      ids := [];
    } else {
      var x :| x in s;
      var rest := Listing(s - {x});
      assert x !in Elements(rest);
      ids := rest + [x];
      assert Elements(ids) == Elements(rest) + {x};
    }
  }

  /** Every rank below the number of competitors is taken. */
  lemma RankIsTaken(entries: map<Id, Entry>, run: set<Id>, r: nat) returns (id: Id)
    requires run <= entries.Keys && r < |run|
    ensures id in run && Rank(entries, run, id) == r
  {
    var ids := Listing(run);
    assert forall j :: j in ids ==> j in Elements(ids);
    SortIsListing(entries, ids);
    var sorted := Sort(entries, ids);
    DistinctSize(ids);
    PositionIsRank(entries, sorted, r);
    id := sorted[r];
    assert id in Elements(sorted);
  }
}
