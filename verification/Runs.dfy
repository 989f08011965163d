/** Repeating a step function until it stops; shared by the machines that run in a loop. */
module Runs {
  import opened Wrappers

  /** The state after `n` steps, or None if the machine stopped before. */
  function Iterate<C>(step: C -> Option<C>, c: C, n: nat): Option<C> {
    if n == 0 then Some(c)
    else match step(c)
         case None => None
         case Some(d) => Iterate(step, d, n - 1)
  }

  ghost predicate Reaches<C>(step: C -> Option<C>, c: C, d: C) {
    exists n: nat :: Iterate(step, c, n) == Some(d)
  }

  lemma {:induction false} IterateAdd<C>(step: C -> Option<C>, c: C, m: nat, n: nat)
    requires Iterate(step, c, m).Some?
    ensures Iterate(step, c, m + n) == Iterate(step, Iterate(step, c, m).value, n)
    decreases m
  {
    if m > 0 {
      IterateAdd(step, step(c).value, m - 1, n);
    }
  }

  lemma ReachesTrans<C>(step: C -> Option<C>, c: C, d: C, e: C)
    requires Reaches(step, c, d) && Reaches(step, d, e)
    ensures Reaches(step, c, e)
  {
    var m: nat :| Iterate(step, c, m) == Some(d);
    var n: nat :| Iterate(step, d, n) == Some(e);
    IterateAdd(step, c, m, n);
    assert Iterate(step, c, m + n) == Some(e);
  }

  lemma ReachesSelf<C>(step: C -> Option<C>, c: C)
    ensures Reaches(step, c, c)
  {
    assert Iterate(step, c, 0) == Some(c);
  }

  lemma ReachesStep<C>(step: C -> Option<C>, c: C, d: C)
    requires step(c) == Some(d)
    ensures Reaches(step, c, d)
  {
    assert Iterate(step, d, 0) == Some(d);
    assert Iterate(step, c, 1) == Some(d);
  }

  /** A deterministic machine that stops does so in one state only. */
  lemma StopsOnce<C>(step: C -> Option<C>, c: C, d: C, e: C)
    requires Reaches(step, c, d) && Reaches(step, c, e) && step(d) == None && step(e) == None
    ensures d == e
  {
    var m: nat :| Iterate(step, c, m) == Some(d);
    var n: nat :| Iterate(step, c, n) == Some(e);
    if m < n {
      IterateAdd(step, c, m, n - m);
    } else if n < m {
      IterateAdd(step, c, n, m - n);
    }
  }

  /** What one step keeps, every run keeps. */
  lemma {:induction false} Keeps<C(!new)>(step: C -> Option<C>, inv: C -> bool, c: C, n: nat)
    requires inv(c)
    requires forall x :: inv(x) && step(x).Some? ==> inv(step(x).value)
    ensures Iterate(step, c, n).Some? ==> inv(Iterate(step, c, n).value)
    decreases n
  {
    if n > 0 && step(c).Some? {
      Keeps(step, inv, step(c).value, n - 1);
    }
  }
}
