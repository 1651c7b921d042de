/** Small definitions shared by the component models. */
module Common {

  datatype Option<+T> = None | Some(value: T)

  /** No value occurs at two positions of s. */
  ghost predicate NoDup<T>(s: seq<T>) {
    forall i, j :: 0 <= i < j < |s| ==> s[i] != s[j]
  }

  lemma NoDupAppend<T>(s: seq<T>, x: T)
    requires NoDup(s) && x !in s
    ensures NoDup(s + [x])
  {
  }

  lemma NoDupPrepend<T>(x: T, s: seq<T>)
    requires NoDup(s) && x !in s
    ensures NoDup([x] + s)
  {
  }

  // ---------------------------------------------------------------------------
  // Executions of a state machine
  // ---------------------------------------------------------------------------

  /** A finite execution: it starts in an initial state, and consecutive states
      are related by next. */
  ghost predicate IsRun<S(!new)>(run: seq<S>, init: S -> bool, next: (S, S) -> bool) {
    && |run| > 0
    && init(run[0])
    && forall i, j :: 0 <= i < j < |run| && j == i + 1 ==> next(run[i], run[j])
  }

  /** What a step keeps holds from any state of a run onwards. */
  lemma {:induction false} KeptFrom<S(!new)>(run: seq<S>, init: S -> bool, next: (S, S) -> bool,
                                             inv: S -> bool, i: nat, j: nat)
    requires IsRun(run, init, next) && i <= j < |run|
    requires inv(run[i])
    requires forall s, s' :: inv(s) && next(s, s') ==> inv(s')
    ensures inv(run[j])
    decreases j
  {
    if i < j {
      KeptFrom(run, init, next, inv, i, j - 1);
      assert next(run[j - 1], run[j]);
    }
  }

  /** What holds initially and is kept by every step holds throughout a run. */
  lemma Always<S(!new)>(run: seq<S>, init: S -> bool, next: (S, S) -> bool,
                        inv: S -> bool, i: nat)
    requires IsRun(run, init, next) && i < |run|
    requires forall s :: init(s) ==> inv(s)
    requires forall s, s' :: inv(s) && next(s, s') ==> inv(s')
    ensures inv(run[i])
  {
    KeptFrom(run, init, next, inv, 0, i);
  }

  lemma NextAt<S(!new)>(run: seq<S>, init: S -> bool, next: (S, S) -> bool, i: nat)
    requires IsRun(run, init, next) && i + 1 < |run|
    ensures next(run[i], run[i + 1])
  {
  }
}
