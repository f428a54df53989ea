/** Finitely many steps of a relation. */
module Closure {

  ghost predicate Reaches<T(!new)>(step: (T, T) -> bool, x: T, y: T, n: nat)
    decreases n
  {
    if n == 0 then x == y else exists z :: step(x, z) && Reaches(step, z, y, n - 1)
  }

  lemma Once<T(!new)>(step: (T, T) -> bool, x: T, y: T)
    requires step(x, y)
    ensures Reaches(step, x, y, 1)
  {
    assert Reaches(step, y, y, 0);
  }

  lemma {:induction false} Then<T(!new)>(step: (T, T) -> bool, x: T, y: T, z: T, m: nat, n: nat)
    requires Reaches(step, x, y, m) && Reaches(step, y, z, n)
    ensures Reaches(step, x, z, m + n)
    decreases m
  {
    if m > 0 {
      var w :| step(x, w) && Reaches(step, w, y, m - 1);
      Then(step, w, y, z, m - 1, n);
    }
  }

  lemma StepThen<T(!new)>(step: (T, T) -> bool, x: T, y: T, z: T, n: nat)
    requires step(x, y) && Reaches(step, y, z, n)
    ensures Reaches(step, x, z, n + 1)
  {
  }
}
