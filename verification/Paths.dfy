/** Paths of a step system, whatever its states and steps are. */
module Paths {

  /** `run` takes `steps` one after another, each allowed by `goes`. */
  ghost predicate IsPath<S(!new), T(!new)>(goes: (S, T, S) -> bool, run: seq<S>, steps: seq<T>) {
    && |run| == |steps| + 1
    && forall i {:trigger steps[i]} :: 0 <= i < |steps| ==> goes(run[i], steps[i], run[i + 1])
  }

  ghost predicate Joins<S(!new), T(!new)>(goes: (S, T, S) -> bool, s: S, t: S, run: seq<S>, steps: seq<T>) {
    IsPath(goes, run, steps) && run[0] == s && run[|steps|] == t
  }

  ghost predicate Reaches<S(!new), T(!new)>(goes: (S, T, S) -> bool, s: S, t: S) {
    exists run, steps :: Joins(goes, s, t, run, steps)
  }

  lemma Chain<S(!new), T(!new)>(goes: (S, T, S) -> bool, a: seq<S>, x: seq<T>, b: seq<S>, y: seq<T>)
    returns (run: seq<S>, steps: seq<T>)
    requires IsPath(goes, a, x) && IsPath(goes, b, y) && a[|x|] == b[0]
    ensures Joins(goes, a[0], b[|y|], run, steps) && steps == x + y
  {
    run, steps := a + b[1..], x + y;
    forall i | 0 <= i < |steps| ensures goes(run[i], steps[i], run[i + 1]) {
      if i < |x| {
        assert run[i] == a[i] && run[i + 1] == a[i + 1] && steps[i] == x[i];
      } else {
        var j := i - |x|;
        assert run[i] == b[j] && run[i + 1] == b[j + 1] && steps[i] == y[j];
      }
    }
  }

  lemma ReachesSelf<S(!new), T(!new)>(goes: (S, T, S) -> bool, s: S)
    ensures Reaches(goes, s, s)
  {
    assert Joins(goes, s, s, [s], []);
  }

  lemma ReachesJoins<S(!new), T(!new)>(goes: (S, T, S) -> bool, s: S, m: S, t: S)
    requires Reaches(goes, s, m) && Reaches(goes, m, t)
    ensures Reaches(goes, s, t)
  {
    var a, x :| Joins(goes, s, m, a, x);
    var b, y :| Joins(goes, m, t, b, y);
    var run, steps := Chain(goes, a, x, b, y);
  }

  lemma ReachesByStep<S(!new), T(!new)>(goes: (S, T, S) -> bool, s: S, m: S, step: T, t: S)
    requires Reaches(goes, s, m) && goes(m, step, t)
    ensures Reaches(goes, s, t)
  {
    assert Joins(goes, m, t, [m, t], [step]);
    ReachesJoins(goes, s, m, t);
  }

  /** A path of a system is one of every system that allows more. */
  lemma PathMore<S(!new), T(!new)>(less: (S, T, S) -> bool, more: (S, T, S) -> bool, run: seq<S>, steps: seq<T>)
    requires IsPath(less, run, steps) && forall x, step, y :: less(x, step, y) ==> more(x, step, y)
    ensures IsPath(more, run, steps)
  {
  }

  /** A system that allows more reaches more. */
  lemma ReachesMore<S(!new), T(!new)>(less: (S, T, S) -> bool, more: (S, T, S) -> bool, s: S, t: S)
    requires Reaches(less, s, t) && forall x, step, y :: less(x, step, y) ==> more(x, step, y)
    ensures Reaches(more, s, t)
  {
    var run, steps :| Joins(less, s, t, run, steps);
    assert Joins(more, s, t, run, steps);
  }

  /** What every step keeps holds along every path. */
  lemma {:induction false} PathKeeps<S(!new), T(!new)>(goes: (S, T, S) -> bool, kept: S -> bool,
                                                       run: seq<S>, steps: seq<T>, n: nat)
    requires IsPath(goes, run, steps) && n < |run| && kept(run[0])
    requires forall x, step, y :: kept(x) && goes(x, step, y) ==> kept(y)
    ensures kept(run[n])
  {
    if n == 0 {
    } else {
      PathKeeps(goes, kept, run, steps, n - 1);
      assert goes(run[n - 1], steps[n - 1], run[n]);
    }
  }

  lemma ReachesKeeps<S(!new), T(!new)>(goes: (S, T, S) -> bool, kept: S -> bool, s: S, t: S)
    requires Reaches(goes, s, t) && kept(s)
    requires forall x, step, y :: kept(x) && goes(x, step, y) ==> kept(y)
    ensures kept(t)
  {
    var run, steps :| Joins(goes, s, t, run, steps);
    PathKeeps(goes, kept, run, steps, |steps|);
  }
}
