/**
 * Repeating a step of a state machine, and chaining runs of phases whose
 * lengths add up: the generic facts the countdown proofs are built on.
 */
module Iteration {

  /** `n` successive applications of `step`. */
  function Iterate<S>(step: S -> S, s: S, n: nat): S
    decreases n
  {
    if n == 0 then s else Iterate(step, step(s), n - 1)
  }

  /** Total length of the `k` phases numbered `first` to `first + k - 1`. */
  function SpanOf(len: nat -> nat, first: nat, k: nat): nat
    decreases k
  {
    if k == 0 then 0 else SpanOf(len, first, k - 1) + len(first + k - 1)
  }

  /** Running `a + b` steps is running `a` steps and then `b` more. */
  lemma {:induction false} IterateAdd<S>(step: S -> S, s: S, a: nat, b: nat)
    ensures Iterate(step, s, a + b) == Iterate(step, Iterate(step, s, a), b)
    decreases a
  {
    if a > 0 {
      IterateAdd(step, step(s), a - 1, b);
    }
  }

  /**
   * If each phase `r >= 1`, started in state `at(r)`, ends after `len(r)`
   * steps in `at(r + 1)`, then `k` phases on from phase `first` is phase
   * `first + k`.
   */
  lemma {:induction false} Chain<S>(step: S -> S, at: nat -> S, len: nat -> nat,
                                    s: S, n: nat, first: nat, k: nat)
    requires first >= 1 && Iterate(step, s, n) == at(first)
    requires forall r: nat {:trigger Iterate(step, at(r), len(r))} ::
      r >= 1 ==> Iterate(step, at(r), len(r)) == at(r + 1)
    ensures Iterate(step, s, n + SpanOf(len, first, k)) == at(first + k)
    decreases k
  {
    if k > 0 {
      Chain(step, at, len, s, n, first, k - 1);
      IterateAdd(step, s, n + SpanOf(len, first, k - 1), len(first + k - 1));
    }
  }
}
