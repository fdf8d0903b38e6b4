/** Runs of a state machine whose steps may be disabled. */
module Runs {
  import opened Options

  /** Follows `run` from `s`; None when some action is not enabled where it occurs. */
  function Exec<S, A>(step: (S, A) -> Option<S>, s: S, run: seq<A>): Option<S> {
    if run == [] then Some(s)
    else
      match Exec(step, s, run[..|run| - 1])
      case None => None
      case Some(t) => step(t, run[|run| - 1])
  }

  /** A run that leads from `s` to `t`, and one more step. */
  lemma Extend<S, A>(step: (S, A) -> Option<S>, s: S, run: seq<A>, t: S, a: A) returns (next: seq<A>, u: S)
    requires Exec(step, s, run) == Some(t) && step(t, a).Some?
    ensures next == run + [a] && u == step(t, a).value && Exec(step, s, next) == Some(u)
  {
    next, u := run + [a], step(t, a).value;
    assert next[..|next| - 1] == run;
  }

  ghost predicate Leads<S, A>(step: (S, A) -> Option<S>, s: S, a: A, t: S) {
    step(s, a) == Some(t)
  }

  /** A list of states, each leading to the next. */
  lemma {:induction false} Chain<S, A>(step: (S, A) -> Option<S>, states: seq<S>, run: seq<A>)
    requires |states| == |run| + 1
    requires forall i :: 0 <= i < |run| ==> Leads(step, states[i], run[i], states[i + 1])
    ensures Exec(step, states[0], run) == Some(states[|run|])
  {
    if run != [] {
      var n := |run| - 1;
      Chain(step, states[..|run|], run[..n]);
      assert Leads(step, states[n], run[n], states[n + 1]);
    }
  }

  /** One run after another. */
  lemma {:induction false} Concat<S, A>(step: (S, A) -> Option<S>, s: S, first: seq<A>, t: S, second: seq<A>)
    requires Exec(step, s, first) == Some(t)
    ensures Exec(step, s, first + second) == Exec(step, t, second)
  {
    if second == [] {
      assert first + second == first;
    } else {
      var init := second[..|second| - 1];
      Concat(step, s, first, t, init);
      assert (first + second)[..|first + second| - 1] == first + init;
    }
  }
}
