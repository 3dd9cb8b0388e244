/** The retry loop both generators share (script.js:216-238 and 282-318): up
    to 20 attempts, each reading its own block of draws, stopping at the
    first that yields a question. An attempt is a function from the draw at
    which it starts to its outcome (`None` when its candidate is rejected). */
module Attempts {
  import opened Options
  import opened Random

  /** The attempt budget of both generators. */
  const MaxAttempts: nat := 20

  /** None of the first `n` attempts, in blocks of `step` draws from draw
      `first` on, yields anything. */
  ghost predicate AllFail<T>(attemptAt: nat -> Option<T>, first: nat, step: nat, n: nat)
  {
    n == 0
    || (AllFail(attemptAt, first, step, n - 1) && attemptAt(BlockStart(first, n - 1, step)).None?)
  }

  /** The outcome of the loop after running `attempts` attempts: all but the
      last failed, `found` is what the last yielded, it failed only when the
      budget ran out, and `next` is the first draw no attempt read. */
  ghost predicate LoopOutcome<T>(attemptAt: nat -> Option<T>, first: nat, step: nat,
                           found: Option<T>, next: nat, attempts: nat)
  {
    && 1 <= attempts <= MaxAttempts
    && AllFail(attemptAt, first, step, attempts - 1)
    && found == attemptAt(BlockStart(first, attempts - 1, step))
    && (found.None? ==> attempts == MaxAttempts)
    && next == BlockStart(first, attempts, step)
  }

  /** One more failed attempt extends the run of failures. */
  lemma AllFailNext<T>(attemptAt: nat -> Option<T>, first: nat, step: nat, n: nat)
    requires AllFail(attemptAt, first, step, n)
    requires attemptAt(BlockStart(first, n, step)).None?
    ensures AllFail(attemptAt, first, step, n + 1)
  {
  }

  /** Every attempt of a run of failures failed. */
  lemma {:induction false} AllFailAt<T>(attemptAt: nat -> Option<T>, first: nat, step: nat, n: nat, j: nat)
    requires AllFail(attemptAt, first, step, n) && j < n
    ensures attemptAt(BlockStart(first, j, step)).None?
  {
    if j < n - 1 {
      AllFailAt(attemptAt, first, step, n - 1, j);
    }
  }

  /** The loop stops at the first attempt that yields something, after `n` failures. */
  lemma LoopFound<T>(attemptAt: nat -> Option<T>, first: nat, step: nat, n: nat, found: Option<T>, next: nat)
    requires n < MaxAttempts && AllFail(attemptAt, first, step, n)
    requires found.Some? && found == attemptAt(BlockStart(first, n, step))
    requires next == BlockStart(first, n + 1, step)
    ensures LoopOutcome(attemptAt, first, step, found, next, n + 1)
  {
  }

  /** The loop gives up after `MaxAttempts` failures. */
  lemma LoopExhausted<T>(attemptAt: nat -> Option<T>, first: nat, step: nat, next: nat)
    requires AllFail(attemptAt, first, step, MaxAttempts)
    requires next == BlockStart(first, MaxAttempts, step)
    ensures LoopOutcome(attemptAt, first, step, None, next, MaxAttempts)
  {
  }
}
