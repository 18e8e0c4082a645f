/** Runs of a machine given by an initial state, the events possible in a state, and
    the state after an event. */
module Traces {

  datatype Outcome<S> = Stuck | Reached(s: S)

  /** The state after `es`, if each event was possible in its turn. */
  function After<S, E>(init: S, enabled: (S, E) -> bool, step: (S, E) -> S, es: seq<E>): Outcome<S> {
    if es == [] then Reached(init)
    else
      var r, e := After(init, enabled, step, es[..|es| - 1]), es[|es| - 1];
      if r.Reached? && enabled(r.s, e) then Reached(step(r.s, e)) else Stuck
  }

  lemma AfterExtend<S, E>(init: S, enabled: (S, E) -> bool, step: (S, E) -> S, es: seq<E>, s: S, e: E)
    requires After(init, enabled, step, es) == Reached(s) && enabled(s, e)
    ensures After(init, enabled, step, es + [e]) == Reached(step(s, e))
  {
    assert (es + [e])[..|es|] == es;
  }

  ghost predicate Kept<S(!new), E(!new)>(enabled: (S, E) -> bool, step: (S, E) -> S, inv: S -> bool) {
    forall s, e :: inv(s) && enabled(s, e) ==> inv(step(s, e))
  }

  /** What holds at first and is kept by every event holds after every run. */
  lemma {:induction false} AfterKeeps<S(!new), E(!new)>(
      init: S, enabled: (S, E) -> bool, step: (S, E) -> S, inv: S -> bool, es: seq<E>)
    requires inv(init) && Kept(enabled, step, inv) && After(init, enabled, step, es).Reached?
    ensures inv(After(init, enabled, step, es).s)
  {
    if es != [] {
      AfterKeeps(init, enabled, step, inv, es[..|es| - 1]);
    }
  }
}
