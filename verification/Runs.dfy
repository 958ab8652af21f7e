/** Runs of a machine: what a list of actions makes of a state, as long as each of them can happen. */
module Runs {
  import opened Wrappers

  ghost function After<S(!new), A(!new)>(step: (S, A) -> Option<S>, s: S, acts: seq<A>): Option<S>
    decreases |acts|
  {
    if acts == [] then Some(s) else
    match step(s, acts[0])
    case None => None
    case Some(t) => After(step, t, acts[1..])
  }

  lemma {:induction false} Concat<S(!new), A(!new)>(step: (S, A) -> Option<S>, s: S, first: seq<A>, mid: S, second: seq<A>)
    requires After(step, s, first) == Some(mid)
    ensures After(step, s, first + second) == After(step, mid, second)
    decreases |first|
  {
    if first == [] {
      assert first + second == second;
    } else {
      assert (first + second)[1..] == first[1..] + second;
      Concat(step, step(s, first[0]).value, first[1..], mid, second);
    }
  }

  /** Extends a run by one action. */
  lemma Take<S(!new), A(!new)>(step: (S, A) -> Option<S>, s: S, acts: seq<A>, mid: S, a: A) returns (longer: seq<A>, t: S)
    requires After(step, s, acts) == Some(mid) && step(mid, a).Some?
    ensures longer == acts + [a] && step(mid, a) == Some(t) && After(step, s, longer) == Some(t)
  {
    longer, t := acts + [a], step(mid, a).value;
    Concat(step, s, acts, mid, [a]);
    assert [a][1..] == [];
    assert After(step, t, [a][1..]) == Some(t);
  }

  /** Every prefix of a run is a run. */
  lemma {:induction false} Prefix<S(!new), A(!new)>(step: (S, A) -> Option<S>, s: S, acts: seq<A>, t: S, j: nat)
    returns (mid: S)
    requires After(step, s, acts) == Some(t) && j <= |acts|
    ensures After(step, s, acts[..j]) == Some(mid) && After(step, mid, acts[j..]) == Some(t)
    decreases j
  {
    if j == 0 {
      mid := s;
      assert acts[..0] == [] && acts[0..] == acts;
    } else {
      mid := Prefix(step, step(s, acts[0]).value, acts[1..], t, j - 1);
      assert acts[..j][1..] == acts[1..][..j - 1] && acts[1..][j - 1..] == acts[j..];
    }
  }
}
