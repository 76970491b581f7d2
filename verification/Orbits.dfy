/** Repeated application of a partial step: what a run that stops, and a run
    that comes back to where it was, look like. */
module Orbits {
  import opened Basics

  /** The value after n steps; None if a step is missing earlier. */
  function After<T>(step: T -> Option<T>, x: T, n: nat): Option<T> {
    if n == 0 then Some(x)
    else
      match After(step, x, n - 1)
      case None => None
      case Some(y) => step(y)
  }

  lemma {:induction false} PrefixClosed<T>(step: T -> Option<T>, x: T, m: nat, n: nat)
    requires m < n && After(step, x, n).Some?
    ensures After(step, x, m).Some? && After(step, x, m + 1).Some?
    ensures step(After(step, x, m).value) == After(step, x, m + 1)
    decreases n
  {
    if m < n - 1 {
      PrefixClosed(step, x, m, n - 1);
    }
  }

  /** Restarting from a value on the orbit walks the rest of the orbit. */
  lemma {:induction false} Shifts<T>(step: T -> Option<T>, x: T, m: nat, k: nat)
    requires After(step, x, m).Some?
    ensures After(step, x, m + k) == After(step, After(step, x, m).value, k)
  {
    if k > 0 {
      Shifts(step, x, m, k - 1);
      assert m + k - 1 == m + (k - 1);
    }
  }

  /** A run that stops never visits a value twice. */
  lemma {:induction false} StoppingNeverRepeats<T>(step: T -> Option<T>, x: T, n: nat, i: nat, j: nat)
    requires After(step, x, n).Some? && After(step, x, n + 1).None?
    requires i < j <= n
    ensures After(step, x, i).Some? && After(step, x, j).Some?
    ensures After(step, x, i) != After(step, x, j)
    decreases n - j
  {
    PrefixClosed(step, x, i, n);
    assert step(After(step, x, n).value).None?;
    if j < n {
      PrefixClosed(step, x, j, n);
      StoppingNeverRepeats(step, x, n, i + 1, j + 1);
    }
  }

  /** Once a value comes back the run never stops. */
  lemma {:induction false} NeverStops<T>(step: T -> Option<T>, x: T, i: nat, p: nat, n: nat)
    requires p > 0
    requires After(step, x, i + p).Some? && After(step, x, i) == After(step, x, i + p)
    ensures After(step, x, n).Some?
    decreases n
  {
    if n < i + p {
      PrefixClosed(step, x, n, i + p);
    } else if n > i + p {
      NeverStops(step, x, i, p, n - p);
      PrefixClosed(step, x, i, i + p);
      Shifts(step, x, i, n - p - i);
      Shifts(step, x, i + p, n - p - i);
      assert i + (n - p - i) == n - p && i + p + (n - p - i) == n;
    }
  }

  /** Going round a cycle through the start any number of times ends at the
      start. */
  lemma {:induction false} RoundAndRound<T>(step: T -> Option<T>, x: T, p: nat, laps: nat)
    requires p > 0 && After(step, x, p) == Some(x)
    ensures After(step, x, p * laps) == Some(x)
  {
    if laps > 0 {
      RoundAndRound(step, x, p, laps - 1);
      assert p * laps == p * (laps - 1) + p;
      Shifts(step, x, p * (laps - 1), p);
    }
  }
}
