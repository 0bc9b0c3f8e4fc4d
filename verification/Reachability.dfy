/** Finite paths through a step relation. The same notion serves three graphs of the
    taint tracker: taint facts under the flow rules, values under the pointer-origin
    edges, and functions under direct calls. */
module Reachability {

  ghost predicate IsPath<T(!new)>(step: (T, T) -> bool, p: seq<T>) {
    && |p| > 0
    && forall i :: 0 < i < |p| ==> step(p[i - 1], p[i])
  }

  /** `p` is a path that starts in `from` and ends at `to`. */
  ghost predicate Leads<T(!new)>(step: (T, T) -> bool, from: T -> bool, p: seq<T>, to: T) {
    IsPath(step, p) && from(p[0]) && p[|p| - 1] == to
  }

  ghost predicate Reached<T(!new)>(step: (T, T) -> bool, from: T -> bool, to: T) {
    exists p :: Leads(step, from, p, to)
  }

  lemma ReachedStart<T(!new)>(step: (T, T) -> bool, from: T -> bool, x: T)
    requires from(x)
    ensures Reached(step, from, x)
  {
    assert Leads(step, from, [x], x);
  }

  lemma ReachedStep<T(!new)>(step: (T, T) -> bool, from: T -> bool, x: T, y: T)
    requires Reached(step, from, x) && step(x, y)
    ensures Reached(step, from, y)
  {
    var p :| Leads(step, from, p, x);
    assert Leads(step, from, p + [y], y);
  }

  /** More steps and more starting points reach at least as much. */
  lemma ReachedMonotone<T(!new)>(step: (T, T) -> bool, from: T -> bool, step': (T, T) -> bool, from': T -> bool, x: T)
    requires Reached(step, from, x)
    requires forall a, b :: step(a, b) ==> step'(a, b)
    requires forall a :: from(a) ==> from'(a)
    ensures Reached(step', from', x)
  {
    var p :| Leads(step, from, p, x);
    assert Leads(step', from', p, x);
  }

  /** Every closed set around the start contains everything reached: reachability is the
      least set that contains `from` and is closed under `step`. */
  lemma ReachedIsLeast<T(!new)>(step: (T, T) -> bool, from: T -> bool, closed: T -> bool, x: T)
    requires Reached(step, from, x)
    requires forall a :: from(a) ==> closed(a)
    requires forall a, b :: closed(a) && step(a, b) ==> closed(b)
    ensures closed(x)
  {
    var p :| Leads(step, from, p, x);
    PathStaysIn(step, closed, p);
  }

  lemma {:induction false} PathStaysIn<T(!new)>(step: (T, T) -> bool, closed: T -> bool, p: seq<T>)
    requires IsPath(step, p) && closed(p[0])
    requires forall a, b :: closed(a) && step(a, b) ==> closed(b)
    ensures closed(p[|p| - 1])
  {
    if |p| > 1 {
      PathStaysIn(step, closed, p[..|p| - 1]);
    }
  }
}
