/** Runs of a state machine, given by its initial state and its step relation. */
module Runs {

  ghost predicate IsRun<S(!new), A(!new)>(next: (S, A, S) -> bool, states: seq<S>, steps: seq<A>) {
    |states| == |steps| + 1 && forall i | 0 <= i < |steps| :: next(states[i], steps[i], states[i + 1])
  }

  ghost predicate Leads<S(!new), A(!new)>(next: (S, A, S) -> bool, init: S, s: S, states: seq<S>, steps: seq<A>) {
    IsRun(next, states, steps) && states[0] == init && states[|steps|] == s
  }

  ghost predicate Reachable<S(!new), A(!new)>(next: (S, A, S) -> bool, init: S, s: S) {
    exists states, steps :: Leads(next, init, s, states, steps)
  }

  lemma Starts<S(!new), A(!new)>(next: (S, A, S) -> bool, init: S)
    ensures Reachable(next, init, init)
  {
    assert Leads(next, init, init, [init], []);
  }

  lemma Reaches<S(!new), A(!new)>(next: (S, A, S) -> bool, init: S, s: S, a: A, t: S)
    requires Reachable(next, init, s) && next(s, a, t)
    ensures Reachable(next, init, t)
  {
    var states, steps :| Leads(next, init, s, states, steps);
    var longer, more := states + [t], steps + [a];
    forall i | 0 <= i < |more|
      ensures next(longer[i], more[i], longer[i + 1])
    {
      if i < |steps| {
        assert next(states[i], steps[i], states[i + 1]);
      }
    }
    assert Leads(next, init, t, longer, more);
  }
}
